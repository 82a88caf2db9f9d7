/**
 The input that a plan gives to the SimGrid runner.  It describes the same waits as the
 in-process simulator sees, so the two agree on which plans can be carried out.
 */
module RunnerContract {
  import opened Graphs
  import opened Reals
  import opened Outcomes
  import opened Dependencies
  import opened Lanes
  import opened LaneOrder
  import opened Model
  import opened Network
  import opened Simulation
  import opened Simulator
  import opened PlanCheck
  import opened Validator
  import opened Schedules
  import opened Figures
  import Runner
  import RunnerSafety

  datatype ContractError = NoAssignment(activity: Id) | MissingResource(activity: Id)

  function RunnerRecord(request: Request, d: Dependency): Runner.RunnerDependency {
    Runner.RunnerDependency(d.dependsOn, d.activity, DataBytes(request.dataDependencies, d.dependsOn, d.activity))
  }

  /** Activity `a` can be given to the runner. */
  ghost predicate Assignable(request: Request, a: Id) {
    Assigns(request.assignments, a) && AssignmentOf(request.assignments, a).lane.resource in request.resources
  }

  ghost predicate DescribesTasks(request: Request, tasks: seq<Id>, resources: map<Id, Id>) {
    && resources.Keys == ToSet(tasks)
    && forall a <- tasks :: a in resources && resources[a] == ResourceId(request, a)
  }

  ghost predicate DescribesDependencies(
    request: Request, dependencies: seq<Dependency>, records: seq<Runner.RunnerDependency>)
  {
    |records| == |dependencies|
    && forall i :: 0 <= i < |records| ==> records[i] == RunnerRecord(request, dependencies[i])
  }

  ghost predicate DescribesLanes(previous: map<Id, Id>, lanes: seq<Runner.LaneStep>) {
    forall l :: l in lanes <==> l.successor in previous && previous[l.successor] == l.predecessor
  }

  // ---------- What tasks compute and transfers cost ----------

  /** What the runner is told about one task. */
  datatype Work = Work(flops: real, overhead: real, pricePerSecond: real)

  /** The work an activity states of itself, if any. */
  function ActivityFlops(activity: Activity): real {
    if activity.simulation.Some? && activity.simulation.value.flops > 0.0 then activity.simulation.value.flops
    else if activity.simulation.Some? && Positive(activity.simulation.value.parameterFlops) then
      activity.simulation.value.parameterFlops.value
    else if Positive(activity.metadataFlops) then activity.metadataFlops.value
    else 0.0
  }

  predicate Positive(value: Option<real>) {
    value.Some? && value.value > 0.0
  }

  /** The speed of a host. */
  function ResourceFlops(resource: Resource, reference: real): real {
    if Positive(resource.flopsPerSecond) then resource.flopsPerSecond.value
    else if resource.speedup > 0.0 then reference * resource.speedup
    else reference
  }

  function WorkOf(request: Request, reference: real, a: Id): Work {
    var stated := ActivityFlops(ActivityOf(request, a));
    Work(if stated <= 0.0 then Runtime(request, a) * ResourceFlops(ResourceOf(request, a), reference) else stated,
         Overhead(request, a), ResourceOf(request, a).pricePerSecond)
  }

  /** The runner raises negative work to zero. */
  function ComputeSeconds(work: Work, speed: real): real
    requires speed > 0.0
  {
    Max(0.0, work.flops) / speed
  }

  /**
   On its host alone, a task computes as long as the simulator lets it run, exactly when that is not
   negative and the task does not state its work or states what that takes.
   */
  lemma ComputesTheRuntime(request: Request, reference: real, a: Id)
    requires ResourceFlops(ResourceOf(request, a), reference) > 0.0
    ensures var speed := ResourceFlops(ResourceOf(request, a), reference);
            var stated := ActivityFlops(ActivityOf(request, a));
            ComputeSeconds(WorkOf(request, reference, a), speed) == Runtime(request, a)
            <==> Runtime(request, a) >= 0.0 && (stated <= 0.0 || stated == Runtime(request, a) * speed)
  {
    var speed, runtime := ResourceFlops(ResourceOf(request, a), reference), Runtime(request, a);
    var stated := ActivityFlops(ActivityOf(request, a));
    hide ActivityFlops, ResourceFlops, Runtime, ResourceOf, ActivityOf, Overhead;
    RaisedWork(if stated <= 0.0 then runtime * speed else stated, stated, runtime, speed);
  }

  lemma RaisedWork(flops: real, stated: real, runtime: real, speed: real)
    requires speed > 0.0 && flops == if stated <= 0.0 then runtime * speed else stated
    ensures Max(0.0, flops) / speed == runtime
            <==> runtime >= 0.0 && (stated <= 0.0 || stated == runtime * speed)
  {
    Quotient(Max(0.0, flops), runtime, speed);
    SignOfProduct(runtime, speed);
  }

  /** The speed of a host: as stated, or the reference times its speedup, or the reference. */
  ghost predicate Speed(resource: Resource, reference: real, speed: real) {
    var stated := resource.flopsPerSecond.Some? && resource.flopsPerSecond.value > 0.0;
    && (stated ==> resource.flopsPerSecond == Some(speed))
    && (!stated && resource.speedup > 0.0 ==> speed / resource.speedup == reference)
    && (!stated && resource.speedup <= 0.0 ==> speed == reference)
  }

  /** An activity states its work where it is simulated, in a parameter, in its metadata, or not at all. */
  ghost predicate States(activity: Activity, flops: real) {
    var spec := activity.simulation;
    var first := spec.Some? && spec.value.flops > 0.0;
    var second := spec.Some? && spec.value.parameterFlops.Some? && spec.value.parameterFlops.value > 0.0;
    var third := activity.metadataFlops.Some? && activity.metadataFlops.value > 0.0;
    && (first ==> flops == spec.value.flops)
    && (!first && second ==> spec.value.parameterFlops == Some(flops))
    && (!first && !second && third ==> activity.metadataFlops == Some(flops))
    && (!first && !second && !third ==> flops == 0.0)
  }

  /** What the runner is told about the speed of a host and the work of an activity, in their fields. */
  lemma SpeedAndWorkByFields(resource: Resource, activity: Activity, reference: real)
    ensures Speed(resource, reference, ResourceFlops(resource, reference))
    ensures States(activity, ActivityFlops(activity))
  {
  }

  /** What the runner is told about a task, in the fields of its activity, its last assignment and its resource. */
  ghost predicate Tells(request: Request, reference: real, x: Assignment, work: Work)
    requires x.activity in request.activities && x.lane.resource in request.resources
  {
    var activity, resource := request.activities[x.activity], request.resources[x.lane.resource];
    && work.pricePerSecond == resource.pricePerSecond
    && Delayed(x, resource, work.overhead)
    && exists stated, runtime, speed ::
         && States(activity, stated) && Speed(resource, reference, speed)
         && RunsFor(activity, x.lane.resource, resource, request.profiles, runtime)
         && work.flops == if stated > 0.0 then stated else runtime * speed
  }

  lemma WorkByFields(request: Request, reference: real, i: nat)
    requires i < |request.assignments|
    requires forall j :: i < j < |request.assignments| ==>
               request.assignments[j].activity != request.assignments[i].activity
    requires request.assignments[i].activity in request.activities
    requires request.assignments[i].lane.resource in request.resources
    ensures var x := request.assignments[i]; Tells(request, reference, x, WorkOf(request, reference, x.activity))
  {
    var x := request.assignments[i];
    var activity, resource := request.activities[x.activity], request.resources[x.lane.resource];
    LastAssignment(request.assignments, i);
    SpeedAndWorkByFields(resource, activity, reference);
    RuntimeIs(activity, x.lane.resource, resource, request.profiles);
    OverheadIs(x, resource);
    hide States, Speed, RunsFor, Delayed, ActivityFlops, ResourceFlops, ResolveRuntime, ResolveOverhead;
    assert WorkOf(request, reference, x.activity).flops
        == if ActivityFlops(activity) > 0.0 then ActivityFlops(activity)
           else ResolveRuntime(activity, x.lane.resource, resource, request.profiles)
                * ResourceFlops(resource, reference);
  }

  /** An activity with a base runtime is the same work on every host, and takes its part of the speedup. */
  lemma BaseRuntimeIsWork(request: Request, reference: real, a: Id)
    requires reference > 0.0 && ResourceOf(request, a).speedup > 0.0 && ResourceOf(request, a).flopsPerSecond == None
    requires ActivityOf(request, a).baseRuntime.Some? && States(ActivityOf(request, a), 0.0)
    ensures var base, work := ActivityOf(request, a).baseRuntime.value, WorkOf(request, reference, a);
            var speed := ResourceFlops(ResourceOf(request, a), reference);
            && work.flops == base * reference
            && speed > 0.0
            && (base >= 0.0 ==> ComputeSeconds(work, speed) * ResourceOf(request, a).speedup == base)
  {
    var base, speedup := ActivityOf(request, a).baseRuntime.value, ResourceOf(request, a).speedup;
    var speed := reference * speedup;
    assert Runtime(request, a) == base / speedup;
    WorkOfBase(base, reference, speedup);
    hide ActivityOf, ResourceOf, Runtime;
  }

  lemma WorkOfBase(base: real, reference: real, speedup: real)
    requires reference > 0.0 && speedup > 0.0
    ensures (base / speedup) * (reference * speedup) == base * reference && reference * speedup > 0.0
    ensures base >= 0.0 ==> base * reference >= 0.0 && ((base * reference) / (reference * speedup)) * speedup == base
  {
    var x := base / speedup;
    assert x * speedup == base;
    assert x * (reference * speedup) == (x * speedup) * reference;
    Quotient(base * reference, x, reference * speedup);
  }

  lemma Quotient(work: real, runtime: real, speed: real)
    requires speed != 0.0
    ensures work / speed == runtime <==> work == runtime * speed
  {
    assert (work / speed) * speed == work;
  }

  lemma SignOfProduct(runtime: real, speed: real)
    requires speed > 0.0
    ensures runtime * speed >= 0.0 <==> runtime >= 0.0
  {
  }

  /** One activity on one host of the reference speed 1. */
  function SoloPlan(simulation: SimulationSpec): Request {
    Request(["a"], map["a" := NO_ACTIVITY.(simulation := Some(simulation))], [], [], [OnLane("a", "x", 1)],
            map["x" := NO_RESOURCE], map[], [])
  }

  lemma SoloWork(simulation: SimulationSpec)
    ensures var r := SoloPlan(simulation);
            && ResourceFlops(ResourceOf(r, "a"), 1.0) == 1.0 && Runtime(r, "a") == simulation.duration
            && (simulation.parameterFlops.None? ==>
                  WorkOf(r, 1.0, "a").flops == if simulation.flops > 0.0 then simulation.flops else simulation.duration)
  {
    var r := SoloPlan(simulation);
    AssignmentOfMember(r.assignments, r.assignments[0]);
  }

  /** A task that states two units of work computes for two seconds, not for its simulated one. */
  lemma StatedWorkTakesLonger()
    ensures var r := SoloPlan(SimulationSpec(1.0, 2.0, None));
            && Runtime(r, "a") == 1.0 && ResourceFlops(ResourceOf(r, "a"), 1.0) == 1.0
            && ComputeSeconds(WorkOf(r, 1.0, "a"), 1.0) == 2.0
  {
    SoloWork(SimulationSpec(1.0, 2.0, None));
  }

  /** A negative duration is simulated as it is and computed as zero. */
  lemma NegativeRuntimeIsNotComputed()
    ensures var r := SoloPlan(SimulationSpec(-1.0, 0.0, None));
            && Runtime(r, "a") == -1.0 && ResourceFlops(ResourceOf(r, "a"), 1.0) == 1.0
            && ComputeSeconds(WorkOf(r, 1.0, "a"), 1.0) == 0.0
  {
    SoloWork(SimulationSpec(-1.0, 0.0, None));
  }

  ghost predicate DescribesWork(request: Request, reference: real, tasks: seq<Id>, works: map<Id, Work>) {
    && works.Keys == ToSet(tasks)
    && forall a <- tasks :: a in works && works[a] == WorkOf(request, reference, a)
  }

  /** The price of one byte: that of a fastest route, nothing at home or without a route. */
  ghost predicate FairPrice(links: seq<Link>, source: Id, target: Id, price: real) {
    && (source == target || !Reachable(links, source, target) ==> price == 0.0)
    && (source != target && Reachable(links, source, target) && NonNegative(Seconds(links, 1)) ==>
          Priced(links, source, target, 1, PathTime(links, source, target, 1), price))
  }

  function AssignedTo(request: Request, a: Id): Id {
    AssignmentOf(request.assignments, a).lane.resource
  }

  ghost predicate DescribesPrices(request: Request, dependencies: seq<Dependency>, prices: seq<real>) {
    |prices| == |dependencies|
    && forall i :: 0 <= i < |prices| ==>
         FairPrice(request.links, AssignedTo(request, dependencies[i].dependsOn),
                   AssignedTo(request, dependencies[i].activity), prices[i])
  }

  /** `input` says what the plan says. */
  ghost predicate Describes(request: Request, previous: map<Id, Id>, input: Runner.Input) {
    && input.tasks == request.order
    && DescribesTasks(request, input.tasks, input.resources)
    && DescribesDependencies(request, request.dependencies, input.dependencies)
    && DescribesLanes(previous, input.lanes)
  }

  method BuildTasks(request: Request, index: Index, reference: real)
    returns (fault: Option<ContractError>, resources: map<Id, Id>, works: map<Id, Work>)
    requires Indexes(index, request) && forall x :: x in index.assignments <==> Assigns(request.assignments, x)
    ensures fault.None? <==> forall a <- request.order :: Assignable(request, a)
    ensures fault.None? ==> DescribesTasks(request, request.order, resources)
    ensures fault.None? ==> DescribesWork(request, reference, request.order, works)
  {
    resources, works := map[], map[];
    for i := 0 to |request.order|
      invariant forall a <- request.order[..i] :: Assignable(request, a)
      invariant DescribesTasks(request, request.order[..i], resources)
      invariant DescribesWork(request, reference, request.order[..i], works)
    {
      var a := request.order[i];
      var known, task := BuildTask(request, index, reference, a);
      if known.Some? {
        return known, resources, works;
      }
      assert request.order[..i + 1] == request.order[..i] + [a];
      DescribeOne(request, reference, request.order, i, resources, works);
      hide DescribesTasks, DescribesWork, Assignable;
      resources, works := resources[a := index.assignments[a].lane.resource], works[a := task];
    }
    assert request.order[..|request.order|] == request.order;
    fault := None;
  }

  /** One task of the input, unless it has no assignment or no resource. */
  method BuildTask(request: Request, index: Index, reference: real, a: Id)
    returns (fault: Option<ContractError>, task: Work)
    requires Indexes(index, request) && forall x :: x in index.assignments <==> Assigns(request.assignments, x)
    ensures fault.None? <==> Assignable(request, a)
    ensures fault.None? ==> a in index.assignments && index.assignments[a].lane.resource == ResourceId(request, a)
    ensures fault.None? ==> task == WorkOf(request, reference, a)
  {
    task := Work(0.0, 0.0, 0.0);
    if a !in index.assignments {
      return Some(NoAssignment(a)), task;
    }
    assert Assigned(index.assignments, a) == AssignmentOf(request.assignments, a);
    var assignment := index.assignments[a];
    if assignment.lane.resource !in request.resources {
      return Some(MissingResource(a)), task;
    }
    var resource := request.resources[assignment.lane.resource];
    var flops := ActivityFlops(ActivityOf(request, a));
    if flops <= 0.0 {
      var runtime := ResolveRuntime(ActivityOf(request, a), assignment.lane.resource, resource, request.profiles);
      flops := runtime * ResourceFlops(resource, reference);
    }
    task := Work(flops, ResolveOverhead(assignment, resource), resource.pricePerSecond);
    fault := None;
  }

  lemma DescribeOne(
    request: Request, reference: real, tasks: seq<Id>, i: nat, resources: map<Id, Id>, works: map<Id, Work>)
    requires i < |tasks| && DescribesTasks(request, tasks[..i], resources)
    requires DescribesWork(request, reference, tasks[..i], works)
    ensures DescribesTasks(request, tasks[..i + 1], resources[tasks[i] := ResourceId(request, tasks[i])])
    ensures DescribesWork(request, reference, tasks[..i + 1], works[tasks[i] := WorkOf(request, reference, tasks[i])])
  {
    hide WorkOf, ResourceId;
    assert tasks[..i + 1] == tasks[..i] + [tasks[i]];
  }

  method BuildDependencies(request: Request, index: Index)
    returns (records: seq<Runner.RunnerDependency>, prices: seq<real>)
    requires Indexes(index, request)
    ensures DescribesDependencies(request, request.dependencies, records)
    ensures DescribesPrices(request, request.dependencies, prices)
  {
    records, prices := [], [];
    for i := 0 to |request.dependencies|
      invariant DescribesDependencies(request, request.dependencies[..i], records)
      invariant DescribesPrices(request, request.dependencies[..i], prices)
    {
      var d := request.dependencies[i];
      var price := TransferPrice(request.links, Assigned(index.assignments, d.dependsOn).lane.resource,
                                 Assigned(index.assignments, d.activity).lane.resource);
      hide FairPrice;
      var bytes := Moved(index.bytesOf, d.dependsOn, d.activity);
      assert bytes == DataBytes(request.dataDependencies, d.dependsOn, d.activity);
      records := records + [Runner.RunnerDependency(d.dependsOn, d.activity, bytes)];
      prices := prices + [price];
    }
    assert request.dependencies[..|request.dependencies|] == request.dependencies;
  }

  method BuildLanes(previous: map<Id, Id>) returns (lanes: seq<Runner.LaneStep>)
    ensures DescribesLanes(previous, lanes) && |lanes| == |previous|
  {
    lanes := [];
    var todo := previous.Keys;
    while todo != {}
      invariant todo <= previous.Keys && |lanes| + |todo| == |previous.Keys|
      invariant forall l :: l in lanes <==> l.successor in previous && l.successor !in todo
                                            && previous[l.successor] == l.predecessor
    {
      var successor :| successor in todo;
      todo := todo - {successor};
      lanes := lanes + [Runner.LaneStep(previous[successor], successor)];
    }
  }

  method BuildRunnerInput(request: Request, index: Index, reference: real)
    returns (r: Result<Runner.Input, ContractError>, works: map<Id, Work>, prices: seq<real>)
    requires Indexes(index, request) && forall x :: x in index.assignments <==> Assigns(request.assignments, x)
    ensures r.Ok? <==> forall a <- request.order :: Assignable(request, a)
    ensures r.Ok? ==> Describes(request, index.previous, r.value)
    ensures r.Ok? ==> DescribesWork(request, reference, request.order, works)
    ensures r.Ok? ==> DescribesPrices(request, request.dependencies, prices)
  {
    hide Assignable, DescribesTasks, DescribesWork, DescribesPrices, DescribesDependencies, DescribesLanes;
    var fault, resources;
    fault, resources, works := BuildTasks(request, index, reference);
    if fault.Some? {
      return Err(fault.value), map[], [];
    }
    var dependencies;
    dependencies, prices := BuildDependencies(request, index);
    var lanes := BuildLanes(index.previous);
    r := Ok(Runner.Input(request.order, resources, dependencies, lanes));
  }

  /** What one byte costs between two resources. */
  method TransferPrice(links: seq<Link>, source: Id, target: Id) returns (price: real)
    ensures FairPrice(links, source, target, price)
  {
    if source == target {
      return 0.0;
    }
    var seconds, cost, found, route := ResolveNetworkPath(links, source, target, 1);
    if !found {
      return 0.0;
    }
    if NonNegative(Seconds(links, 1)) {
      PathTimeIs(links, source, target, 1, seconds);
      assert Priced(links, source, target, 1, seconds, cost);
    }
    price := cost;
  }

  // ---------- Agreement with the simulator ----------

  lemma SameWaits(request: Request, previous: map<Id, Id>, input: Runner.Input)
    requires Describes(request, previous, input)
    ensures Runner.WaitEdges(input) == Waits(request, previous)
  {
    forall e ensures e in (set d <- input.dependencies :: (d.producer, d.consumer))
                     <==> e in DependencyEdges(request.dependencies)
    {
      DependencyRecords(request, input, e);
    }
    forall e ensures e in (set l <- input.lanes :: (l.predecessor, l.successor)) <==> e in LaneEdges(previous) {
      LaneRecordsOf(previous, input, e);
    }
  }

  lemma DependencyRecords(request: Request, input: Runner.Input, e: (Id, Id))
    requires DescribesDependencies(request, request.dependencies, input.dependencies)
    ensures e in (set d <- input.dependencies :: (d.producer, d.consumer))
            <==> e in DependencyEdges(request.dependencies)
  {
  }

  lemma LaneRecordsOf(previous: map<Id, Id>, input: Runner.Input, e: (Id, Id))
    requires DescribesLanes(previous, input.lanes)
    ensures e in (set l <- input.lanes :: (l.predecessor, l.successor)) <==> e in LaneEdges(previous)
  {
    if e in LaneEdges(previous) {
      assert Runner.LaneStep(e.0, e.1) in input.lanes;
    }
  }

  /** Every dependency between different resources carries data. */
  ghost predicate CrossingsMoveBytes(request: Request) {
    forall d <- request.dependencies ::
      ResourceId(request, d.dependsOn) != ResourceId(request, d.activity) ==>
        DataBytes(request.dataDependencies, d.dependsOn, d.activity) > 0
  }

  lemma InputIsWellFormed(request: Request, previous: map<Id, Id>, input: Runner.Input)
    requires WellPosed(request, previous) && Describes(request, previous, input)
    ensures Runner.WellFormed(input)
  {
    SameWaits(request, previous, input);
    forall d <- input.dependencies ensures d.producer in input.tasks && d.consumer in input.tasks {
      assert (d.producer, d.consumer) in Runner.WaitEdges(input);
    }
    forall l <- input.lanes ensures l.predecessor in input.tasks && l.successor in input.tasks {
      assert (l.predecessor, l.successor) in Runner.WaitEdges(input);
    }
  }

  lemma SameBytes(request: Request, previous: map<Id, Id>, input: Runner.Input)
    requires Runner.WellFormed(input) && Describes(request, previous, input)
    ensures Runner.AllMoveBytes(input) <==> CrossingsMoveBytes(request)
  {
  }

  /**
   The runner carries a plan out exactly when the waits that the simulator sees have no cycle and
   every dependency between resources carries data; the simulator needs network paths instead of data.
   */
  lemma RunnerCompletesExactlyWhen(request: Request, previous: map<Id, Id>, input: Runner.Input)
    requires WellPosed(request, previous) && Describes(request, previous, input)
    ensures RunnerSafety.CanComplete(input) <==> !HasCycle(Waits(request, previous)) && CrossingsMoveBytes(request)
  {
    InputIsWellFormed(request, previous, input);
    SameWaits(request, previous, input);
    SameBytes(request, previous, input);
    RunnerSafety.CompletesExactlyWhen(input);
  }

  // ---------- A plan that only the simulator carries out ----------

  /** `b` on `y` waits for `a` on `x`, and no data is declared. */
  function SilentPlan(): Request {
    var host := NO_RESOURCE.(environmentVersion := "v", schedulable := true);
    Request(["a", "b"], map["a" := NO_ACTIVITY, "b" := NO_ACTIVITY], [Dependency("b", "a")], [],
            [OnLane("a", "x", 1), OnLane("b", "y", 1)], map["x" := host, "y" := host], map[], [])
  }

  lemma SilentIsCovered()
    ensures var r := SilentPlan(); Covers(r.activities, r.resources, {"v"}, r.assignments)
  {
    var all := SilentPlan().assignments;
    assert all[0] in all && all[1] in all;
  }

  lemma SilentResources()
    ensures AssignedTo(SilentPlan(), "a") == "x" && AssignedTo(SilentPlan(), "b") == "y"
    ensures ResourceId(SilentPlan(), "a") == "x" && ResourceId(SilentPlan(), "b") == "y"
  {
    var all := SilentPlan().assignments;
    assert all[0] in all && all[1] in all;
    AssignmentOfMember(all, all[0]);
    AssignmentOfMember(all, all[1]);
  }

  lemma SilentOrders()
    ensures var r := SilentPlan(); OrdersAccepted(r.assignments, r.dependencies)
  {
    SilentResources();
  }

  lemma SilentDependencies()
    ensures var r := SilentPlan();
            AllKnown(r.activities.Keys, r.dependencies) && !HasCycle(DependencyEdges(r.dependencies))
            && Distinct(r.order)
  {
    RankedIsAcyclic(DependencyEdges(SilentPlan().dependencies), map["a" := 0, "b" := 1]);
  }

  lemma SilentIsAccepted()
    ensures var r := SilentPlan(); Accepted(r.activities, r.dependencies, r.resources, {"v"}, r.assignments)
  {
    SilentIsCovered();
    SilentOrders();
    SilentDependencies();
    hide Covers, OrdersAccepted, AllKnown, HasCycle;
  }

  lemma SilentLanes(previous: map<Id, Id>)
    requires LanePrevious(SilentPlan().assignments, previous)
    ensures previous == map[]
  {
    var all := SilentPlan().assignments;
    assert all[0] in all && all[1] in all;
    NoNeighbour(all, previous, all[0]);
    NoNeighbour(all, previous, all[1]);
    hide Placed;
    assert forall id <- previous :: id == "a" || id == "b";
    assert previous.Keys == {};
  }

  /** An assignment alone on its lane has nothing before it. */
  lemma NoNeighbour(assignments: seq<Assignment>, previous: map<Id, Id>, a: Assignment)
    requires LanePrevious(assignments, previous) && a in assignments
    requires forall x <- assignments :: x.lane == a.lane ==> x == a
    ensures a.activity !in previous
  {
    assert Placed(assignments, previous, a);
  }

  lemma SilentRuns(previous: map<Id, Id>)
    requires LanePrevious(SilentPlan().assignments, previous)
    ensures WellPosed(SilentPlan(), previous) && !HasCycle(Waits(SilentPlan(), previous))
  {
    var r := SilentPlan();
    SilentDependencies();
    SilentLanes(previous);
    assert Waits(r, previous) == DependencyEdges(r.dependencies);
    hide HasCycle, LanePrevious;
  }

  lemma SilentPaths()
    ensures PathsExist(SilentPlan()) && !CrossingsMoveBytes(SilentPlan())
  {
    SilentResources();
    var r := SilentPlan();
    assert r.dependencies[0] in r.dependencies;
  }

  /** The validator accepts a plan and the simulator completes it, but no run of the runner does. */
  lemma AcceptedPlanMayStarve(previous: map<Id, Id>, input: Runner.Input)
    requires LanePrevious(SilentPlan().assignments, previous) && Describes(SilentPlan(), previous, input)
    ensures var r := SilentPlan();
            && Accepted(r.activities, r.dependencies, r.resources, {"v"}, r.assignments)
            && Runnable(r, previous) && PathsExist(r)
            && !RunnerSafety.CanComplete(input)
  {
    SilentIsAccepted();
    SilentPaths();
    hide *;
    SilentRuns(previous);
    WellPosedIsRunnable(SilentPlan(), previous);
    RunnerCompletesExactlyWhen(SilentPlan(), previous, input);
  }
}
