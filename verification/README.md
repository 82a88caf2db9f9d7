# AkôFlow: a verified model of planning, simulation and execution

AkôFlow plans, simulates and runs workflows: directed graphs of activities that are assigned to
resources, wait for each other, and move data between resources. This project models the parts of
AkôFlow whose correctness is hardest to see and proves properties of every input, every run or every
interleaving:

* the plan validator and the plan simulator (which plans are accepted, which finish, at what times,
  at what cost), with the network model and its two shortest-route searches;
* the SimGrid runner, in which task and transfer actors exchange tokens through mailboxes, and the
  input the plan gives to it;
* the execution supervisor and the activity controller, which start and poll activities against an
  arbitrary runtime;
* the durable queue with its leases, and the event loop that drains it with bounded concurrency;
* the content-addressed resumable transfer, and the gate that keeps an activity from starting before
  its data is in place;
* import and export of workflow definitions.

`dafny verify dfyconfig.toml` checks everything.

## How it is organised

| file | content |
|---|---|
| `Outcomes.dfy`, `Reals.dfy`, `Graphs.dfy`, `Ordering.dfy`, `Dependencies.dfy`, `Model.dfy` | options and results; minimum and maximum; waits, cycles and ranks; alphabetical order; predecessor lists; activities and resources |
| `Network.dfy`, `NetworkLaws.dfy` | links, routes, the two Dijkstra searches; what routes take and cost in the fields of their links |
| `Lanes.dfy`, `LaneOrder.dfy` | assignments, lanes, who runs just before whom |
| `Validator.dfy`, `PlanCheck.dfy` | Kahn's algorithm, lane orders, coverage, the whole validation |
| `Simulation.dfy`, `Shipments.dfy`, `Simulator.dfy`, `Schedules.dfy`, `Figures.dfy` | times as a system of equations, the transfers, the worklist, laws about all solutions, the figures of each execution in the fields of the request |
| `Billing.dfy`, `Traces.dfy`, `TraceFigures.dfy` | active-window bills and how tasks share them, in both executors; the trace and metrics of a simulated plan, also in the fields of its executions |
| `Mailboxes.dfy`, `Runner.dfy`, `RunnerSafety.dfy`, `RunnerContract.dfy` | actors and mailboxes in general, the runner's actors, what its runs guarantee, the plan's input for it |
| `ActivityController.dfy`, `SupervisorTables.dfy`, `RuntimeStarts.dfy`, `Supervisor.dfy` | idempotent starts; the supervisor's tables and histories; what one delivery does to the runtimes; the supervisor's loop |
| `Queue.dfy`, `QueueColumns.dfy`, `QueueRepository.dfy`, `EventLoop.dfy`, `EventLoopLaws.dfy` | the lease protocol, what its columns tell, its repository, the loop, what the loop can always do |
| `Transfer.dfy`, `TransferLaws.dfy`, `TransferCounts.dfy`, `Preparation.dfy` | copying blobs, laws over interrupted runs, what is reported as transferred, the preparation gate |
| `WorkflowCodec.dfy`, `WorkflowFields.dfy`, `WorkflowRoundTrip.dfy` | import, export, what becomes of each field, and when they undo each other |

Identifiers are opaque strings, times and costs are `real`, byte counts and clocks are `int`, the hash
is an arbitrary function, and whatever the outside world decides (runtimes, stores, interruptions,
map iteration order) is an arbitrary input. Lanes, data keys, handle keys and mailbox names, which the
program joins into strings, are tuples.

Some promises do not hold of the code as one might expect; each has failing inputs and its exact
condition here:

* A validated plan may still stall, because the validator compares lane order only for direct
  same-lane dependencies (`Schedules.AcceptedPlanMayStall`). A plan is carried out exactly when it is
  accepted, lists no activity twice, has no cycle of dependencies and lane order, and all paths exist
  (`Schedules.Execute`).
* The runner starves a cross-resource dependency without bytes, also of a plan that the validator
  accepts and the simulator completes (`RunnerContract.AcceptedPlanMayStarve`): it completes exactly
  when there is no cycle and every cross-resource dependency carries bytes
  (`RunnerSafety.CompletesExactlyWhen`).
* A job can be leased more often than its maximum of attempts (`Queue.ExpiriesPassAnyMaximum`): exactly
  when a lease expires after the maximum is used up and the job is leased again
  (`Queue.PassesMaximumExactlyWhen`).
* A corrupt partial object is never repaired (`TransferLaws.WrongByteIsNeverRepaired`,
  `TransferLaws.CorruptForever`): a copy succeeds exactly when the blob is held already or the partial
  with the rest of the source verifies (`TransferLaws.CopySucceedsExactlyWhen`).
* A held blob may be sent again: exactly when its final object cannot be read and something is left to
  send (`TransferLaws.HeldIsSentAgainExactlyWhen`).
* A committed artifact need not be held (`Preparation.UnlistedArtifactIsNotHeld`): after a successful
  transfer a digest is held exactly when the plan lists it or it was held before
  (`Preparation.HeldExactlyWhenListed`).
* Importing an exported definition may change it (`WorkflowRoundTrip.TwoAsChange`): it is exact if and
  only if activities that share an identifier have no dependencies and nothing is resolved
  (`WorkflowRoundTrip.RoundTrip`).
* The two searches may weigh a link differently (`Network.HalfABitPerSecond`): they agree exactly from
  1 bit/s on (`Network.WeightsAgree`).
* The two executors may bill a resource differently (`Billing.NegativePriceIsCredited`): they agree
  exactly when its price is not negative or its window is empty (`Billing.ExecutorsAgree`).
* A task may compute for another time than its simulated runtime (`RunnerContract.StatedWorkTakesLonger`,
  `RunnerContract.NegativeRuntimeIsNotComputed`): they agree exactly when the runtime is not negative and
  the task states no other work (`RunnerContract.ComputesTheRuntime`).
* A transfer may report other bytes than it wrote (`TransferCounts.WrongSizeIsReported`): a copy made to its
  end counts right exactly when the stated size is true or nothing is left to send
  (`TransferCounts.CountsRightExactlyWhen`).
* A host that gets its first speedup may become slower (`Figures.FirstSpeedupMayDelay`); a host that has
  one never delays anything by getting faster (`Figures.FasterHostsDelayNothing`).

## Model

| member | source | states |
|---|---|---|
| Graphs.NothingLeftMayFinish | internal/provider/simgrid/simulation_executor.go:142-144 | when nodes are left and each waits for another one left, the waits contain a cycle |
| Graphs.AllFinishedIsAcyclic | internal/provider/simgrid/simulation_executor.go:96-146 | finishing everything in an order that respects the waits yields a topological rank and excludes cycles |
| Graphs.AcyclicIsRanked | internal/infrastructure/plugins/planning/validator.go:105-146 | on finitely many nodes, waits without a cycle have a topological rank |
| Graphs.RankedIsAcyclic | internal/infrastructure/plugins/planning/validator.go:105-146 | waits with a topological rank have no cycle |
| Dependencies.IndexPredecessors | internal/provider/simgrid/simulation_executor.go:67-71 | the map holds each activity's predecessors in record order, repeated records included |
| Dependencies.PredecessorsAreEdges | internal/provider/simgrid/simulation_executor.go:67-71 | predecessor lists and dependency edges are the same relation |
| Network.BuildGraph | internal/provider/simgrid/platform.go:71-85 | adjacency lists hold exactly the usable crossings: forward for every link, backward only for bidirectional ones |
| Network.SelectNearest | internal/provider/simgrid/simulation_executor.go:329-335 | picks an unvisited labelled node of least distance, none exactly when all labelled nodes are visited |
| Network.Visit | internal/provider/simgrid/simulation_executor.go:342-350 | following all edges of the nearest open node keeps labels explored and, without negative weights, settled |
| Network.ExhaustedSearchIsClosed | internal/provider/simgrid/simulation_executor.go:336-338 | when no open node is left, every reachable node has a label |
| Network.NearestTargetIsMinimal | internal/provider/simgrid/simulation_executor.go:339-341 | when the target is the nearest open node, no route to it is faster than its label |
| Network.ResolveNetworkPath | internal/provider/simgrid/simulation_executor.go:310-352 | found exactly when the target is reachable; time and cost belong to one route, and with non-negative weights that time is the minimum over all routes; terminates |
| Network.ShortestLinkPath | internal/provider/simgrid/platform.go:87-115 | found exactly when reachable; the links form a connected route of minimal platform weight that goes backwards only over bidirectional links |
| Network.ShortestTimeIsUnique | internal/provider/simgrid/simulation_executor.go:310-352 | the transfer time does not depend on how ties between routes are broken |
| Network.NonNegativeLatencies | internal/domain/resource/resource.go:111-119 | non-negative latencies make all link weights of both searches non-negative, whatever the bandwidth |
| Network.WeightsAgree | internal/provider/simgrid/platform.go:71-85 | the platform weight of a link is its one-byte time if and only if its bandwidth is at least 1 bit/s |
| Network.HalfABitPerSecond | internal/provider/simgrid/platform.go:71-85 | a link of half a bit per second weighs 8 seconds for the platform and 16 for the simulator |
| Network.SearchesAgree | internal/provider/simgrid/platform.go:87-115 | on such links a time is shortest for one search exactly when it is for the other |
| NetworkLaws.LinkSeconds | internal/domain/resource/resource.go:111-119 | one link takes its latency and eight bits per byte at its bandwidth; no data takes the latency, and a link without bandwidth moves data at once |
| NetworkLaws.LinkWeight | internal/provider/simgrid/platform.go:71-85 | the platform weighs a link by its latency and one byte, at no less than one bit per second |
| NetworkLaws.TimeIsAdditive | internal/domain/resource/resource.go:111-119 | along any route the time beyond the latencies is additive in the bytes |
| NetworkLaws.CostIsPerByte | internal/provider/simgrid/simulation_executor.go:310-352 | along any route every byte pays the price of every link crossed |
| NetworkLaws.MoreBytesTakeLonger | internal/provider/simgrid/simulation_executor.go:310-352 | the shortest time for more data is never shorter, even when another route is then fastest |
| NetworkLaws.OneLinkAnswer | internal/provider/simgrid/simulation_executor.go:310-352 | for the only link between two nodes the search answers its latency and eight bits per byte at its bandwidth, and its price per byte |
| Lanes.IndexAssignments | internal/provider/simgrid/simulation_executor.go:61-63 | the index yields the last assignment recorded for an activity and knows exactly the assigned activities |
| Lanes.GroupByLane | internal/provider/simgrid/simulation_executor.go:76-80 | each lane holds exactly its assignments in plan order |
| Lanes.SortByOrder | internal/provider/simgrid/simulation_executor.go:81-82 | sorted by order and a permutation of the lane; orders are distinct after exactly when they were before |
| Lanes.SamePlace | internal/infrastructure/plugins/planning/validator.go:156-163 | with distinct lane orders two assignments with one lane and order are the same |
| LaneOrder.IndexLanes | internal/provider/simgrid/simulation_executor.go:76-88 | whatever the assignments are, the links are those of each lane sorted by order, lane after lane; with activities assigned once and distinct orders they are exactly the lane predecessors |
| LaneOrder.TidyLinks | internal/provider/simgrid/simulation_executor.go:81-86 | links of sorted lanes give each assignment the last one before it on its lane and the first one nothing, when orders are distinct and activities assigned once |
| LaneOrder.NeighbourEdge | internal/provider/simgrid/simulation_executor.go:83-85 | each assignment waits for the one just before it on its lane |
| LaneOrder.LanePreviousIsUnique | internal/provider/simgrid/simulation_executor.go:76-88 | validated assignments determine the lane predecessors, in whatever order maps are walked |
| Validator.IndexDependencies | internal/infrastructure/plugins/planning/validator.go:106-123 | without a fault the in-degrees count waiting records and the successor lists match the records; a fault is that of the first bad record |
| Validator.Release | internal/infrastructure/plugins/planning/validator.go:135-140 | each successor record lowers the in-degree by one and queues an activity exactly when it reaches zero; what is queued is what the history gains |
| Validator.Drain | internal/infrastructure/plugins/planning/validator.go:130-144 | the history starts with the initial queue, holds as many activities as are visited and none twice, and exactly those whose predecessors it holds; it holds all if and only if there is no cycle, and then in a topological order |
| Validator.ValidateDag | internal/infrastructure/plugins/planning/validator.go:105-146 | accepts exactly when all endpoints are known and there is no cycle, then a topological rank exists; no activity enters the queue twice, also with duplicate records, and on acceptance each enters it; reports the first bad record |
| PlanCheck.CheckLanes | internal/infrastructure/plugins/planning/validator.go:148-163 | no fault exactly when no lane has two assignments of one order; a reported lane has some |
| PlanCheck.ValidateResourceOrders | internal/infrastructure/plugins/planning/validator.go:148-175 | accepts exactly when lane orders are distinct and direct same-lane dependencies follow them; faults point at real records |
| PlanCheck.CoverageByCount | internal/infrastructure/plugins/planning/validator.go:85-87 | comparing the number of assigned activities with the number of activities decides coverage |
| PlanCheck.PassesExactlyWhen | internal/infrastructure/plugins/planning/validator.go:49-84 | the checks of an assignment pass exactly when activity and resource are known, the resource is in scope, schedulable, selected or overridden, large enough or a scheduler target, the predicted times are in order and the activity has no assignment yet |
| PlanCheck.FaultIsFirstWrong | internal/infrastructure/plugins/planning/validator.go:49-84 | a fault is reported if and only if its check fails and every check before it passes |
| PlanCheck.CheckAssignments | internal/infrastructure/plugins/planning/validator.go:49-87 | accepts exactly when every activity has one assignment and each assignment is within scope, schedulable, selected, large enough and ordered in time; otherwise the first check that the first bad assignment fails is reported, or that an activity is left |
| PlanCheck.HeaderFault | internal/infrastructure/plugins/planning/validator.go:21-40 | no fault exactly when the plan refers to this workflow and scope, to this topology if to any, and the topology to the scope; a fault names the first reference that does not |
| PlanCheck.Validate | internal/infrastructure/plugins/planning/validator.go:14-92 | accepts exactly the plans that refer to the given workflow, scope and topology, cover the workflow, and have known acyclic dependencies and consistent lane orders; a fault comes from the first of these checks that fails |
| Simulation.IndexBytes | internal/provider/simgrid/simulation_executor.go:72-75 | bytes of a pair are the sum over all its data dependencies |
| Simulation.ResolveTransfer | internal/provider/simgrid/simulation_executor.go:158-182 | data moves only between different resources and when there is some; then along a route of the network, a fastest one unless latencies are negative, or it fails exactly when there is none |
| Simulation.ResolveTransfers | internal/provider/simgrid/simulation_executor.go:149-185 | one transfer record per predecessor that needs it; ready time is the maximum over predecessors of finish plus transfer, total is the sum of the transfers; without negative latencies these are the shortest possible; fails exactly when a path is missing |
| Simulation.FastestTransfers | internal/provider/simgrid/simulation_executor.go:149-185 | without negative latencies the transfers made give the ready time and the total of shortest paths |
| Simulation.TimedGrows | internal/provider/simgrid/simulation_executor.go:112-139 | running one more ready activity changes no earlier time |
| Shipments.ShipOne | internal/provider/simgrid/simulation_executor.go:112-139 | running one more activity keeps every execution what follows from its transfers and what finished before: one transfer per predecessor that needs it, and no others |
| Shipments.ShippedIsTimed | internal/provider/simgrid/simulation_executor.go:112-139 | without negative latencies such executions solve the equations of the plan |
| Simulator.IndexRequest | internal/provider/simgrid/simulation_executor.go:50-88 | all lookup tables answer like the records they were built from, for every request; lane predecessors are exact for validated assignments |
| Simulator.TryRun | internal/provider/simgrid/simulation_executor.go:102-138 | blocked exactly when something it waits for has not run; otherwise start, finish, runtime, overhead and transfers are those that follow from what has finished and the transfers made |
| Simulator.Sweep | internal/provider/simgrid/simulation_executor.go:97-144 | a sweep that makes progress completes at least one more activity; one that does not leaves nothing ready |
| Simulator.Simulate | internal/provider/simgrid/simulation_executor.go:90-147 | for every request succeeds exactly when activities are listed once, wait only for activities, have no cycle of dependencies and lane order, and all paths exist; then every execution follows from the recorded transfers, which are exactly the needed ones, and without negative latencies the times solve the plan; a stall means one of the first three fails, a path error a missing path; at most one sweep per activity |
| Simulator.WellPosedIsRunnable | internal/provider/simgrid/simulation_executor.go:96-146 | when all waits are between activities listed once, everything can run exactly when the waits have no cycle |
| Schedules.TimesAreUnique | internal/provider/simgrid/simulation_executor.go:90-147 | without a cycle the equations start = max(0, predecessor finish + transfer, lane predecessor finish), finish = start + runtime + overhead have one solution |
| Schedules.OrderDoesNotMatter | internal/provider/simgrid/simulation_executor.go:98 | two results of the executor for one plan, with the activities listed in any order and maps walked in any order, have the same times and lane predecessors |
| Schedules.SimulationIsEarliest | internal/provider/simgrid/simulation_executor.go:121-128 | no assignment of start times that obeys the same waits starts or finishes any activity earlier |
| Schedules.SimulationObeys | internal/provider/simgrid/simulation_executor.go:121-128 | the simulated starts obey the waits themselves, so the bound is attained |
| Schedules.LanesDoNotOverlap | internal/provider/simgrid/simulation_executor.go:76-128 | on one lane an activity finishes before every later one starts, not only before its neighbour |
| Schedules.AcceptedIsWellPosed | internal/infrastructure/plugins/planning/validator.go:14-92 | an accepted plan meets everything the simulator relies on |
| Schedules.AcceptedRuns | internal/infrastructure/plugins/planning/validator.go:14-92 | an accepted plan can run exactly when no activity is listed twice and there is no cycle through lanes |
| Schedules.Execute | internal/provider/simgrid/simulation_executor.go:20-39 | succeeds if and only if the validator accepts, activities are listed once, dependencies and lane order have no cycle and all paths exist; then every execution follows from the recorded transfers, and without negative latencies the plan is performed with its unique times; each error has its reason |
| Schedules.AcceptedPlanMayStall | internal/infrastructure/plugins/planning/validator.go:164-173 | a concrete accepted plan has a cycle of dependencies and lane order, so it cannot progress |
| Figures.SimulatedIsMeasured | internal/provider/simgrid/simulation_executor.go:112-139 | every simulated execution has the runtime and overhead that the fields of its activity, of the last assignment of the activity and of its resource give: base runtime over speedup, else the profile, else the duration, else nothing; boot plus container time of the assignment, else of the resource |
| Figures.AcceptedIsMeasured | internal/provider/simgrid/simulation_executor.go:222-232 | so has every execution of an accepted plan, for its one assignment |
| Figures.FasterHostsDelayNothing | internal/provider/simgrid/simulation_executor.go:278-290 | raising speedups, with lanes as planned and base runtimes not negative, makes no activity start or finish later |
| Figures.FirstSpeedupMayDelay | internal/provider/simgrid/simulation_executor.go:279-284 | a concrete activity profiled at 1 second takes 5 on a host that gets a speedup of 2 |
| Billing.SharesAddUp | internal/provider/simgrid/simulation_executor.go:258-265 | the shares of a bill add up to the bill, split by weight or evenly |
| Billing.ResourcePaysItsBill | internal/provider/simgrid/simulation_executor.go:237-267 | the tasks of a resource together pay price times active window, and nothing when the price is not positive |
| Billing.TasksPayTheBills | internal/provider/simgrid/simulation_executor.go:199-206 | the cost of all tasks is the sum of the resources' bills |
| Billing.ApplyResourceActiveCosts | internal/provider/simgrid/simulation_executor.go:237-267 | rewrites the costs in place to the billed ones and changes nothing else |
| Billing.BuildMetrics | internal/provider/simgrid/simulation_executor.go:198-215 | of any tasks and transfer costs, makespan is the latest finish, compute, queue, transfer and overhead times are the sums over the tasks, cost is the sum of all bills plus all transfer costs, and the result is feasible exactly within a positive deadline and budget |
| Billing.BillingKeepsTimes | internal/provider/simgrid/simulation_executor.go:198-206 | billing changes no figure but the cost |
| Traces.BuildTrace | internal/provider/simgrid/simulation_executor.go:187-220 | the tasks are those of the executions in the order of the activities, with the bills of their resources, and the metrics are those of these tasks and the recorded transfers |
| Traces.ExecutePlan | internal/provider/simgrid/simulation_executor.go:20-39 | from a request to its metrics: succeeds exactly when the plan can be carried out, with one billed task per activity, each execution as long as the fields of its activity, assignment and resource say, and the metrics of the simulated plan; every failure has its reason |
| Traces.TransferTimeIsRecorded | internal/provider/simgrid/simulation_executor.go:199-209 | the transfer time of a simulated plan is the sum of its recorded transfers |
| Traces.MakespanIsMinimal | internal/provider/simgrid/simulation_executor.go:200 | no schedule that obeys the waits has a shorter makespan than the simulated plan |
| TraceFigures.MetricsAreSums | internal/provider/simgrid/simulation_executor.go:199-206 | compute, overhead and queue time are the sums over the executions of runtime, overhead and wait between data and start |
| TraceFigures.TasksAreExecutions | internal/provider/simgrid/simulation_executor.go:193-197 | the task of each activity shows the times of its execution and costs its part, by runtime, of price times active window of its resource, or an equal part when nothing ran for any time |
| Billing.Windows | simgrid-runner/src/main.cpp:210-224 | each resource's window spans its tasks from earliest start to latest finish |
| Billing.TaskCosts | simgrid-runner/src/main.cpp:201-238 | each task is charged its share of its resource's window by duration |
| Billing.ReportedCostsAreShares | simgrid-runner/src/main.cpp:231-235 | the reported costs are the shares, in task order |
| Billing.RunnerPaysItsBill | simgrid-runner/src/main.cpp:226-236 | the runner's shares of a resource add up to price times window |
| Billing.ExecutorsAgree | simgrid-runner/src/main.cpp:226-236 | runner and simulator charge a resource the same total if and only if its price is not negative or its window is empty |
| Billing.NegativePriceIsCredited | simgrid-runner/src/main.cpp:226-236 | for one second at a price of -1 the runner charges -1 and the simulator nothing |
| Mailboxes.RunConserves | simgrid-runner/src/main.cpp:156-198 | in every interleaving, tokens in a mailbox are tokens put minus tokens taken |
| Mailboxes.RunsAreFinite | simgrid-runner/src/main.cpp:198 | every run is as long as the moves made and never longer than the actors' work |
| Mailboxes.NoDeadlock | simgrid-runner/src/main.cpp:156-198 | actors whose mailboxes are supplied in full by actors of lower rank never deadlock |
| Mailboxes.TakenWasPut | simgrid-runner/src/main.cpp:161-184 | a token that was taken was put by some actor before |
| Runner.CreateTransfers | simgrid-runner/src/main.cpp:103-124 | transfers are exactly the cross-resource dependencies with positive bytes, in record order |
| Runner.PlannedInAll | simgrid-runner/src/main.cpp:142-197 | how often all actors together put to and take from each mailbox |
| Runner.BytesBalanceMailboxes | simgrid-runner/src/main.cpp:142-197 | when cross-resource dependencies carry bytes, every mailbox receives as many tokens as are taken from it |
| Runner.RunnerNeverDeadlocks | simgrid-runner/src/main.cpp:132-199 | without cycles and with such bytes no reachable state is deadlocked, and runs are bounded |
| Runner.EveryRunCompletes | simgrid-runner/src/main.cpp:132-199 | under the same conditions every partial run extends to a complete one |
| RunnerSafety.ExecutesAfterItsWaits | simgrid-runner/src/main.cpp:177-189 | in every run a task that may execute has seen all its producers and lane predecessors execute, with no condition on the input |
| RunnerSafety.StuckNeverRuns | simgrid-runner/src/main.cpp:177-184 | tasks that wait for each other in a circle never execute |
| RunnerSafety.StarvedNeverRuns | simgrid-runner/src/main.cpp:112 | the consumer of a cross-resource dependency without bytes never executes |
| RunnerSafety.CompletesExactlyWhen | simgrid-runner/src/main.cpp:132-199 | some run completes if and only if there is no cycle and all cross-resource dependencies carry bytes |
| RunnerSafety.NothingIsLeftOver | simgrid-runner/src/main.cpp:192-195 | after a complete run all mailboxes are empty |
| RunnerContract.BuildRunnerInput | internal/provider/simgrid/runner_contract.go:42-89 | succeeds exactly when every activity has an assignment to a known resource; the input then lists tasks with resource, work, overhead and price, one record per dependency with the summed bytes and the price of a byte, and exactly the lane predecessors |
| RunnerContract.SpeedAndWorkByFields | internal/provider/simgrid/runner_contract.go:91-114 | the speed of a host is the stated one, else the reference times its speedup, else the reference; the stated work of an activity is the first positive one of its simulation, its parameter and its metadata |
| RunnerContract.WorkByFields | internal/provider/simgrid/runner_contract.go:52-69 | a task is given the price of its resource, the overhead of its last assignment, and its stated work or else its runtime times the speed of its host |
| RunnerContract.BaseRuntimeIsWork | internal/provider/simgrid/runner_contract.go:91-114 | without a stated speed or work, a base runtime is that many reference units of work whatever the speedup, and computes for its part of the speedup |
| RunnerContract.ComputesTheRuntime | internal/provider/simgrid/runner_contract.go:91-114 | alone on its host a task computes for the runtime of the simulator, with negative work raised to zero, if and only if that runtime is not negative and the task states no work or states what the runtime takes |
| RunnerContract.StatedWorkTakesLonger | internal/provider/simgrid/runner_contract.go:91-104 | a task that states two units of work computes for two seconds while its simulated runtime is one |
| RunnerContract.NegativeRuntimeIsNotComputed | simgrid-runner/src/main.cpp:95 | a duration of -1 is simulated as it is and computed as zero |
| RunnerContract.TransferPrice | internal/provider/simgrid/runner_contract.go:116-125 | the one-byte price of a fastest route, nothing at home or without a route |
| RunnerContract.SameWaits | internal/provider/simgrid/runner_contract.go:71-87 | the runner's input and the simulator have the same waits |
| RunnerContract.RunnerCompletesExactlyWhen | internal/provider/simgrid/runner_contract.go:42-89 | the runner carries a plan out if and only if the simulator's waits have no cycle and every cross-resource dependency carries bytes |
| RunnerContract.AcceptedPlanMayStarve | simgrid-runner/src/main.cpp:112 | a concrete plan that the validator accepts and the simulator completes, and that no run of the runner completes |
| ActivityController.Controller.Save | internal/application/execution/controller.go:83-86 | the handle is stored and its key counts as saved from then on |
| ActivityController.Controller.Start | internal/application/execution/controller.go:27-88 | succeeds exactly when accepted and a handle is saved or the runtime starts, answers for the right activity and the save succeeds; a saved handle is returned and nothing is started; a runtime whose handle cannot be saved is asked to stop; no history ever restarts a saved key |
| ActivityController.Controller.Inspect | internal/application/execution/controller.go:90-136 | answers exactly when the lookup succeeds, the handle is known and the save succeeds; stores what the runtime reports under the key it carries, or failure when the runtime cannot be found or asked; otherwise changes nothing |
| ActivityController.Controller.Stop | internal/application/execution/controller.go:192-209 | the runtime is stopped exactly when the handle is found and it agrees; the stop is recorded exactly when the save succeeds too |
| RuntimeStarts.OnTrackStarted | internal/controlplane/execution/supervisor.go:153-230 | starting an activity of the run that has no saved handle and whose predecessors have finished keeps runtimes from being started twice or too early |
| RuntimeStarts.OnTrackSaved | internal/application/execution/controller.go:83-86 | saving any handle or asking a runtime to stop keeps them from it too |
| Ordering.SortIds | internal/controlplane/execution/supervisor.go:463 | the same identifiers in alphabetical order, distinct if they were |
| Ordering.AlphabeticalIsUnique | internal/controlplane/execution/supervisor.go:463 | a set has one alphabetical listing, so the choice of what starts does not depend on map order |
| SupervisorTables.FinishIsSound | internal/controlplane/execution/supervisor.go:137-143 | moving a running activity to completed keeps the partition, the order of the history and the limit |
| SupervisorTables.BeginIsSound | internal/controlplane/execution/supervisor.go:218-219 | starting an unattempted activity with completed predecessors below the limit keeps them too |
| Supervisor.InspectRunning | internal/controlplane/execution/supervisor.go:123-151 | exactly the running activities that runtimes report complete become completed, nothing else changes, and there always is a handle to poll; every failure has its reason in what was answered, and polling goes on only when every handle could be read and saved, no activity failed and every completed task could be saved |
| Supervisor.ReadyActivities | internal/controlplane/execution/supervisor.go:440-465 | lists, once each and in alphabetical order, exactly the unattempted activities whose predecessors have all completed |
| Supervisor.TryStart | internal/controlplane/execution/supervisor.go:199-217 | keeps runtimes from being started twice or before the predecessors have finished, also when the start fails after reaching the runtime; a failure has its reason in what was answered and is recorded as a failed handle |
| Supervisor.StartOne | internal/controlplane/execution/supervisor.go:166-228 | a successful start enters the activity as completed or running as its saved handle says; a failed start is recorded as a failed handle and has its reason in what was answered |
| Supervisor.StartReady | internal/controlplane/execution/supervisor.go:153-230 | enters exactly the given activities unless one fails to start or its task cannot be saved, and stays sound in either case |
| Supervisor.StartSome | internal/controlplane/execution/supervisor.go:98-108 | starts the alphabetically first ready activities, as many as there are ready ones and free places |
| Supervisor.TurnMakesProgress | internal/controlplane/execution/supervisor.go:88-118 | when everything starts and completes on time, each round attempts something new or finds everything completed |
| Supervisor.CooperationIsPossible | internal/controlplane/execution/supervisor.go:88-118 | for every execution there are rounds in which every start is accepted and every activity completes |
| Supervisor.HelpMakesProgress | internal/controlplane/execution/supervisor.go:88-118 | a round in which nothing fails and one of the running activities completes attempts something new, completes something or finds everything completed |
| Supervisor.HopelessFromTheStart | internal/controlplane/execution/supervisor.go:109-111 | what stops the remaining activities stops the whole execution |
| Supervisor.ListTasks | internal/controlplane/execution/supervisor.go:485-491 | the trace holds every task of the table exactly once, in alphabetical order of the activities |
| SupervisorTables.NothingReadyIsHopeless | internal/controlplane/execution/supervisor.go:109-111 | when no remaining activity is ready and nothing runs, the remaining ones depend on something that is not an activity or contain a cycle |
| Supervisor.ExecuteRound | internal/controlplane/execution/supervisor.go:88-118 | a turn that does not end the execution polls, then starts as many ready activities as fit, and nothing went wrong with any of them; an ending is a justified one |
| Supervisor.ExecuteActivities | internal/controlplane/execution/supervisor.go:75-121 | in every run running and completed partition the attempted tasks, the limit holds and starts follow completed predecessors; since the delivery began no runtime was started twice for an activity or before its predecessors finished, and saved activities are never restarted; "cannot progress" only with a cycle or an unknown predecessor among the remaining; success leaves nothing running and exactly one completed task per activity, and no failure of a running activity was passed over in any round; other failures have a reason; when nothing fails and each round completes one of the running activities, more rounds than twice the activities suffice, and more than the activities when all complete at once: then it succeeds if and only if there is no cycle and no unknown predecessor |
| SupervisorTables.HistoryIsOrdered | internal/controlplane/execution/supervisor.go:440-465 | nothing starts or finishes twice, nothing starts after it finished, and every start comes after the finish of each predecessor |
| SupervisorTables.ActiveCounts | internal/controlplane/execution/supervisor.go:99 | the number kept below the limit is the number of activities that started and did not finish |
| SupervisorTables.HistoryRanks | internal/controlplane/execution/supervisor.go:440-465 | every history ranks what finished so that predecessors come first |
| SupervisorTables.CompletionMeansWellFounded | internal/controlplane/execution/supervisor.go:88-120 | an execution that completes was never hopeless: all predecessors are activities and there is no cycle |
| Queue.RowsFollowHistory | internal/infrastructure/database/queue/repository.go:71-177 | after every history a row is leased exactly when owner and expiry are set, and its counters are those of the history |
| Queue.CompletedAtMostOnce | internal/infrastructure/database/queue/repository.go:135-138 | no job is completed twice |
| Queue.TerminalIsForever | internal/infrastructure/database/queue/repository.go:135-177 | completed, failed and cancelled rows never change again |
| Queue.AttemptsAreBounded | internal/infrastructure/database/queue/repository.go:109-177 | attempts are the leases taken and never exceed the maximum plus the expired leases |
| Queue.PassesMaximumExactlyWhen | internal/infrastructure/database/queue/repository.go:170-177 | in every history attempts exceed the maximum if and only if a lease expired after the maximum was used up and the job was leased again |
| Queue.ExpiriesPassAnyMaximum | internal/infrastructure/database/queue/repository.go:170-177 | a concrete history in which a job is leased any number of times, whatever its maximum |
| Queue.FailsAfterMaxAttempts | internal/infrastructure/database/queue/repository.go:149-163 | without expiries a job fails after exactly its maximum of leases and is pending only before |
| Queue.AlwaysFailingIsDispatchedMaxTimes | internal/infrastructure/database/queue/repository.go:149-163 | in every history, a job that is over without completion, cancellation or expiry has failed after exactly its maximum of leases |
| Queue.DispatchedMaxAttemptsTimes | internal/infrastructure/database/queue/repository.go:149-163 | such histories exist: a job that fails whenever it is leased is leased exactly that often and then fails |
| Queue.StaleWorkersAreFenced | internal/infrastructure/database/queue/repository.go:135-163 | whoever completes, retries or renews is the owner of the job's latest lease in the history |
| Queue.LeaseIsExclusive | internal/infrastructure/database/queue/repository.go:71-177 | until its owner acts, it expires or it is cancelled, a leased row does not change |
| Queue.KeysStayUnique | internal/infrastructure/database/queue/repository.go:33-69 | no history leaves two jobs with one deduplication key |
| QueueColumns.ColumnsFollowHistory | internal/infrastructure/database/queue/repository.go:112-177 | after every interleaving a row keeps what it was published with, was started at its first lease, is available from its last publication, retry or expiry, expires at its last promise, and ended at its last closing event exactly when it is terminal |
| QueueColumns.ReleasesExactlyTheExpired | internal/infrastructure/database/queue/repository.go:170-177 | a release returns exactly the leases whose expiry has passed and leaves all other rows alone |
| QueueColumns.OnlyTheHolderActs | internal/infrastructure/database/queue/repository.go:135-163 | completing, renewing and retrying are possible exactly for the holder of a current lease |
| QueueRepository.SelectJobs | internal/infrastructure/database/queue/repository.go:82-107 | at most the limit of due jobs: more urgent first, then available earlier, then created earlier, and nothing that should come before is left behind |
| QueueRepository.Repository.Publish | internal/infrastructure/database/queue/repository.go:33-69 | every valid job with a free key and identifier is inserted, with the columns the insert writes; a fresh job is a publication of the protocol; a taken key is answered with the existing job; errors change nothing |
| QueueRepository.Repository.Lease | internal/infrastructure/database/queue/repository.go:71-133 | leases to the owner the due jobs of greatest priority, then earliest availability, then earliest creation, and returns the updated rows in that order |
| QueueRepository.Repository.Complete | internal/infrastructure/database/queue/repository.go:135-138 | succeeds exactly for the holder and closes the row; otherwise nothing changes |
| QueueRepository.Repository.RenewLease | internal/infrastructure/database/queue/repository.go:140-147 | succeeds exactly for the holder and moves only the expiry |
| QueueRepository.Repository.Retry | internal/infrastructure/database/queue/repository.go:149-163 | succeeds exactly for the holder; returns the job or fails it when its attempts are used up |
| QueueRepository.Repository.Cancel | internal/infrastructure/database/queue/repository.go:165-168 | succeeds exactly for pending and leased jobs |
| QueueRepository.Repository.ReleaseExpired | internal/infrastructure/database/queue/repository.go:170-177 | returns exactly the expired leases to the queue and counts them |
| QueueRepository.RepositoryFollowsProtocol | internal/infrastructure/database/queue/repository.go:33-177 | every table that a repository reaches by its calls obeys the laws of the protocol, with the repository's own history |
| EventLoop.RunsAreSound | internal/controlplane/eventloop/eventloop.go:49-102 | in every interleaving slots account for handlers, a batch fits into the free slots and freed slots are noticed |
| EventLoop.InFlightIsBounded | internal/controlplane/eventloop/eventloop.go:80-102 | handlers in flight never exceed the concurrency |
| EventLoop.SendNeverBlocks | internal/controlplane/eventloop/eventloop.go:80-91 | the semaphore send of a leased job can always proceed |
| EventLoop.NoWakeUpIsLost | internal/controlplane/eventloop/eventloop.go:49-102 | a loop that waits without a wake-up token, pending or about to be posted, knows the current capacity |
| EventLoop.ReturnsAfterHandlers | internal/controlplane/eventloop/eventloop.go:56-78 | the loop returns only after all handlers have ended |
| EventLoopLaws.LeasedJobsAreHandled | internal/controlplane/eventloop/eventloop.go:80-102 | in every interleaving each leased job has a handler or is still in the loop's hands |
| EventLoopLaws.WakesAreNotified | internal/controlplane/eventloop/eventloop.go:49-78 | the loop wakes up at most once per notification |
| EventLoopLaws.NotificationWakes | internal/controlplane/eventloop/eventloop.go:49-78 | a notification never blocks, and a waiting loop takes it and looks at the queue |
| EventLoopLaws.CanFillUp | internal/controlplane/eventloop/eventloop.go:80-102 | from any wait, one look at a queue with enough jobs brings exactly as many handlers to work as the concurrency allows |
| EventLoopLaws.CanReturn | internal/controlplane/eventloop/eventloop.go:56-102 | every run, whatever has happened, can be continued to the loop's return without leasing anything more |
| EventLoop.BackoffIsMonotoneAndBounded | internal/controlplane/eventloop/eventloop.go:117 | the shift is between 0 and 8, delays never shrink with attempts and stay between the base and 256 times it |
| EventLoop.BackoffDoubles | internal/controlplane/eventloop/eventloop.go:117 | the first delay is the base, each of the next eight doubles it, and then it stays |
| EventLoop.HandledJobsHaveAttempts | internal/controlplane/eventloop/eventloop.go:117 | a job in a handler has been leased at least once, so the shift is never negative |
| Transfer.PrefixDoesNotMatter | internal/application/transfer/service.go:141-156 | a digest with its algorithm in front verifies the same bytes as without |
| Transfer.NamesAreOwn | internal/application/transfer/service.go:117-122 | a blob is read under its digest, or from the configured path exactly when there is one and the plan has one blob |
| Transfer.WrittenHolds | internal/infrastructure/transfer/filesystem.go:98-127 | a write leaves what is before the offset and behind what arrives, puts what arrives between and fills a gap with zeros; at the start it replaces everything |
| Transfer.Endpoint.Put | internal/infrastructure/transfer/filesystem.go:98-127 | offset zero replaces the object, otherwise bytes are written at the offset, after zeros when it lies beyond the end; an interrupted write leaves what arrived |
| Transfer.Endpoint.Commit | internal/infrastructure/transfer/filesystem.go:128-138 | the partial object becomes the final one and is gone; without a partial object it fails and changes nothing |
| Transfer.MaterializeBlob | internal/application/transfer/service.go:66-109 | the loop body on the destination is the copy step: skip verified finals, resume partials, verify, commit; bytes are counted once the copy is complete and its size known |
| Transfer.Materialize | internal/application/transfer/service.go:42-115 | a call changes the destination and reports digests and bytes as the copy steps of its plan say, stopping at the first failure |
| TransferCounts.CountedIsWritten | internal/application/transfer/service.go:86-98 | with sizes stated right or not at all, a copy counts the bytes it writes unless it breaks off before counting, resumed or not |
| TransferCounts.CountsRightExactlyWhen | internal/application/transfer/service.go:86-98 | a copy made to its end counts what it wrote if and only if the stated size is true or nothing is left to send either way |
| TransferCounts.WrongSizeIsReported | internal/application/transfer/service.go:88-98 | a blob of one byte whose plan states five is reported as five |
| TransferCounts.ReportIsWhatWasSent | internal/application/transfer/service.go:42-115 | a call reports at most what it wrote, and exactly that when it succeeds |
| TransferCounts.AnyCutIsPossible | internal/application/transfer/service.go:81-84 | a copy onto an empty destination may break off after any number of bytes; exactly these are left behind, nothing is counted and the call fails |
| TransferLaws.RunsKeepSound | internal/application/transfer/service.go:42-115 | over every sequence of calls cut short anywhere, partials stay prefixes of the source and every new final object has the right digest |
| TransferLaws.CompletedCallHoldsAll | internal/application/transfer/service.go:42-115 | verified digests are held by the destination, and a completed call verified every blob of its plan |
| TransferLaws.CompletedRunIsExact | internal/application/transfer/service.go:42-115 | after any sequence of interrupted calls, a call that completes leaves final objects equal to the source, also where the destination started with damaged final objects; only other bytes of the same digest, present from the start, are excluded |
| TransferLaws.FaultFreeCallSucceeds | internal/application/transfer/service.go:66-110 | from any resumable state an undisturbed call completes |
| TransferLaws.InterruptedRunsCanFinish | internal/application/transfer/service.go:42-115 | after any sequence of interrupted calls one undisturbed call completes |
| TransferLaws.CopySucceedsExactlyWhen | internal/application/transfer/service.go:66-109 | for every hash, an undisturbed copy succeeds if and only if the blob is already held or the partial with the rest of the source verifies |
| TransferLaws.ResumesExactlyFromPrefix | internal/application/transfer/service.go:66-105 | unless the resumed object itself is other bytes with the digest, an undisturbed copy succeeds if and only if the blob is already held or the partial is a prefix of the source |
| TransferLaws.CorruptForever | internal/application/transfer/service.go:66-105 | for every hash, a blob that is not held and whose partial cannot be completed to something that verifies stays so through every sequence of calls |
| TransferLaws.WrongByteIsNeverRepaired | internal/application/transfer/service.go:66-105 | a concrete destination with one wrong byte never holds the blob, whatever calls follow |
| TransferLaws.EachByteOnce | internal/application/transfer/service.go:66-98 | while final objects can be read, the destination gains exactly the bytes written for a blob, also over damaged final objects, so resuming writes no byte twice |
| TransferLaws.HeldIsSentAgainExactlyWhen | internal/application/transfer/service.go:68-84 | a held blob is sent again if and only if its final object cannot be read, nothing fails before the copy and something is left to send |
| Preparation.ReconcileWorkspace | internal/domain/execution/materialization.go:203-214 | missing are, once each, exactly the blobs that are not deleted, have a digest and are not in the inventory |
| Preparation.Workspace.Reconcile | internal/domain/execution/materialization.go:215-218 | stores the missing list and marks the workspace as reconciling |
| Preparation.Workspace.Commit | internal/domain/execution/materialization.go:219-234 | commits exactly when every missing digest was proved, otherwise changes nothing |
| Preparation.CommittedWorkspaceIsComplete | internal/domain/execution/materialization.go:203-234 | after reconciling and a successful transfer that proves the missing blobs, every undeleted blob with a digest is held if and only if the inventory was truthful about the revision before the transfer |
| Preparation.SynchronizeWorkspace | internal/application/transfer/coordinator.go:46-68 | reconciling, transferring and committing in turn: when that succeeds, also with nothing missing, the revision is present if and only if the inventory was truthful before |
| Preparation.PrepareArtifact | internal/application/transfer/coordinator.go:24-45 | success commits the artifact's digest and holds every blob of its plan |
| Preparation.PrepareWorkspace | internal/application/transfer/coordinator.go:46-68 | commits the workspace exactly when the transfer succeeds and proves every missing blob, or every planned one when none was listed; then every missing blob is held, verified by digest |
| Preparation.Prepare | internal/application/transfer/coordinator.go:22-74 | a gate is returned if and only if the artifact has a digest, its transfer and all its saves succeed, and the transfer of the workspace then verifies every missing blob; the gate is ready and everything required is held |
| Preparation.ReadyExactlyWhen | internal/domain/execution/materialization.go:246-254 | a gate is ready exactly when its workspace is committed and its executable is committed under its own, non-empty verified digest |
| Preparation.StartActivity | internal/controlplane/execution/supervisor.go:182-205 | the runtime is started only with everything prepared and the workspace committed, never with a built executable that has no requirement; a failed preparation starts nothing; it ends before the runtime exactly when the requirement cannot be met or there is nobody to meet it |
| Preparation.HeldExactlyWhenListed | internal/application/transfer/service.go:42-115 | after a successful call, from any store and with any faults, a digest is held if and only if the plan lists it or it was held before |
| Preparation.UnlistedArtifactIsNotHeld | internal/application/transfer/service.go:113 | for instance, an artifact whose digest its plan does not list is committed on an empty destination without being held |
| Preparation.PlanTransfer | internal/application/transfer/service.go:18-30 | nothing for one place, otherwise exactly the blobs that are not available; the source path is kept |
| Preparation.PlannedTransferIsComplete | internal/application/transfer/service.go:18-30 | with truthful availability, completing the planned transfer means holding every blob, whatever the source path |
| WorkflowCodec.ActivityRoundTrip | internal/api/requests/workflow.go:143-185 | importing an exported activity gives it back, up to its resolved executable and the priority its predecessors' number gives |
| WorkflowCodec.IndexNames | internal/api/requests/workflow.go:113-123 | identifiers by name, exactly when names are distinct and identify something; otherwise the first bad name is reported |
| WorkflowCodec.ImportDependencies | internal/api/requests/workflow.go:130-138 | one dependency per named predecessor, in order, exactly when all are known; otherwise the first unknown one is reported |
| WorkflowCodec.Domain | internal/api/requests/workflow.go:101-141 | succeeds exactly for importable requests, with all fields, priorities and the flat dependency list; otherwise the first check that fails is reported |
| WorkflowFields.UnitsDoNotMatter | internal/api/requests/workflow.go:197-221 | a limit in milli and the same in cores import alike, and so do Ki, Mi and Gi |
| WorkflowFields.ValidWhenLocated | internal/domain/workflow/executable.go:103-139 | an executable is valid exactly when it is located somewhere, a remote file also on some machine |
| WorkflowFields.ImportedByFields | internal/api/requests/workflow.go:143-185 | an activity gets its identifiers, its limits in cores and whole bytes, its command or shell script, its executable or image, policy, priority and metadata; otherwise the first of limits, command and executable that is wrong is reported |
| WorkflowFields.DefinitionByFields | internal/api/requests/workflow.go:101-141 | the definition names the workflow, its version and type, and holds every activity with its fields, in order |
| WorkflowCodec.FromDomain | internal/api/requests/workflow.go:22-57 | exports names, completed commands, plain limits, metadata and predecessor names grouped by identifier |
| WorkflowRoundTrip.FlattenedThenGrouped | internal/api/requests/workflow.go:23-26 | grouping a flat list again yields the predecessors of all activities that share the identifier, in order |
| WorkflowRoundTrip.ExportIsImportable | internal/api/requests/workflow.go:19-21 | whatever was imported can be exported and imported again |
| WorkflowRoundTrip.RoundTrip | internal/api/requests/workflow.go:22-185 | export and import give back the definition without its default image if and only if nothing is resolved and activities that share an identifier have no dependencies |
| WorkflowRoundTrip.DistinctIdsRoundTrip | internal/api/requests/workflow.go:22-185 | with distinct identifiers the round trip is exact, dependency order and priorities included, and a second export equals the first |
| WorkflowRoundTrip.SharedDependentChanges | internal/api/requests/workflow.go:23-40 | whenever a dependent activity shares its identifier, the round trip changes the definition |
| WorkflowRoundTrip.TwoAsChange | internal/api/requests/workflow.go:187-195 | a concrete request with activities `a` and `A` for which it does |

## Left out

- HTTP handlers, authentication, CLI, configuration, logging, discovery, builds and terminals: plumbing without deep invariants.
- Floating-point rounding, 64-bit overflow, wall clocks, random identifiers and SHA-256: reals, unbounded integers, parameters and an arbitrary hash take their place.
- Empty activity and node identifiers: the code uses `""` as "none" in its maps, so identifiers are taken to be non-empty there.
- Simulator.Simulate: with negative latencies, which the network repository refuses (internal/infrastructure/database/network/repository.go:139), does not say which route a transfer takes, because that depends on map order.
- Network.ResolveNetworkPath: does not say which of several equally fast routes is priced, because that depends on map order.
- SimGrid's timing, platform XML and the runner's result document: only mailbox order, waits, work and bills are modelled.
- Runner.EveryRunCompletes: a transfer actor's blocking send is modelled as one that does not block; since complete runs leave no token behind, the receiver always arrives.
- Supervisor.ExecuteActivities: the tables `running`, `completed` and `tasks` are passed to and returned by the methods instead of being updated in place, and timing fields and transfer observations of the trace are left out, because they are copies of clock readings.
- Supervisor.StartOne: resource lookup and preparation failures are part of the answer that rejects a start, as they end in the same recorded failure.
- QueueRepository.Repository.Publish: payloads, error texts and defaulted times are left out, because nothing depends on them.
- EventLoop.RunsAreSound: a lease may be renewed at any time, so the timing of renewals is not modelled.
- Transfer.Materialize: looking up connectors is left out, because without one the call ends before anything happens; stores other than the local filesystem, path sanitising and the destination root are left out as well, and names are structured values.
- WorkflowCodec.Domain: the dependency type, the activity kind and capabilities, command environment and working directory are left out, because they are constants or copied as they are; limits are read as numbers with units, and `identifier` is any function that keeps the empty name empty.
