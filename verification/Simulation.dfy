/**
 The plan simulator.  An activity waits for its predecessors (plus the time to move
 their data) and for the activity before it on its lane; the simulator sweeps over the
 activities until all have run or none can.
 */
module Simulation {
  import opened Graphs
  import opened Reals
  import opened Outcomes
  import opened Dependencies
  import opened Lanes
  import opened LaneOrder
  import opened Model
  import opened Network

  datatype DataDependency = DataDependency(producer: Id, consumer: Id, bytes: int)

  /** `order` is the order in which the workflow lists its activities. */
  datatype Request = Request(
    order: seq<Id>,
    activities: map<Id, Activity>,
    dependencies: seq<Dependency>,
    dataDependencies: seq<DataDependency>,
    assignments: seq<Assignment>,
    resources: map<Id, Resource>,
    profiles: map<(Id, Id), real>,
    links: seq<Link>
  )

  const NO_ACTIVITY := Activity("", 0.0, 0, "", None, None, None)
  const NO_RESOURCE := Resource("", false, false, 0.0, 0, 0.0, 0.0, 0.0, 0.0, None)

  // ---------- What one activity costs ----------

  function ResolveRuntime(
    activity: Activity, resourceId: Id, resource: Resource, profiles: map<(Id, Id), real>): real
  {
    if activity.baseRuntime.Some? && resource.speedup > 0.0 then activity.baseRuntime.value / resource.speedup
    else if (activity.typeId, resourceId) in profiles then profiles[(activity.typeId, resourceId)]
    else if activity.simulation.Some? then activity.simulation.value.duration
    else 0.0
  }

  function ResolveOverhead(assignment: Assignment, resource: Resource): real {
    (if assignment.bootOverhead.Some? then assignment.bootOverhead.value else resource.bootOverhead) +
    (if assignment.containerOverhead.Some? then assignment.containerOverhead.value else resource.containerOverhead)
  }

  /** A resource that is not among the request's resources is the empty one, without a name. */
  function KnownId(resources: map<Id, Resource>, r: Id): Id {
    if r in resources then r else ""
  }

  function KnownResource(resources: map<Id, Resource>, r: Id): Resource {
    if r in resources then resources[r] else NO_RESOURCE
  }

  function ResourceId(request: Request, id: Id): Id {
    KnownId(request.resources, AssignmentOf(request.assignments, id).lane.resource)
  }

  function ResourceOf(request: Request, id: Id): Resource {
    KnownResource(request.resources, AssignmentOf(request.assignments, id).lane.resource)
  }

  function ActivityOf(request: Request, id: Id): Activity {
    if id in request.activities then request.activities[id] else NO_ACTIVITY
  }

  function Runtime(request: Request, id: Id): real {
    ResolveRuntime(ActivityOf(request, id), ResourceId(request, id), ResourceOf(request, id), request.profiles)
  }

  function Overhead(request: Request, id: Id): real {
    ResolveOverhead(AssignmentOf(request.assignments, id), ResourceOf(request, id))
  }

  function Duration(request: Request, id: Id): real {
    Runtime(request, id) + Overhead(request, id)
  }

  // ---------- What one dependency costs ----------

  /** Bytes that all data dependencies together move from `p` to `a`. */
  function DataBytes(dataDependencies: seq<DataDependency>, p: Id, a: Id): int {
    if dataDependencies == [] then 0 else
      var n := |dataDependencies| - 1;
      DataBytes(dataDependencies[..n], p, a) +
      if dataDependencies[n].producer == p && dataDependencies[n].consumer == a then dataDependencies[n].bytes else 0
  }

  predicate NeedsTransfer(request: Request, p: Id, a: Id) {
    ResourceId(request, p) != ResourceId(request, a) && DataBytes(request.dataDependencies, p, a) > 0
  }

  ghost predicate PathExists(request: Request, p: Id, a: Id) {
    NeedsTransfer(request, p, a) ==> Reachable(request.links, ResourceId(request, p), ResourceId(request, a))
  }

  ghost function PathTime(links: seq<Link>, a: Id, b: Id, bytes: int): real {
    if t :| ShortestTime(links, Seconds(links, bytes), a, b, t) then t else 0.0
  }

  /** How long the data of `p` takes to reach `a` once `p` has finished. */
  ghost function Delay(request: Request, p: Id, a: Id): real {
    if NeedsTransfer(request, p, a)
    then PathTime(request.links, ResourceId(request, p), ResourceId(request, a),
                  DataBytes(request.dataDependencies, p, a))
    else 0.0
  }

  // ---------- Executions ----------

  datatype Execution = Execution(
    activity: Id,
    resource: Id,
    dataReady: real,
    start: real,
    finish: real,
    runtime: real,
    overhead: real,
    transferSeconds: real
  )

  datatype Transfer = Transfer(
    producer: Id,
    consumer: Id,
    bytes: int,
    start: real,
    seconds: real,
    cost: real
  )

  type Executions = map<Id, Execution>

  function FinishOf(done: Executions, id: Id): real {
    if id in done then done[id].finish else 0.0
  }

  ghost function DataReady(request: Request, done: Executions, predecessors: seq<Id>, a: Id): real {
    if predecessors == [] then 0.0 else
      var n := |predecessors| - 1;
      Max(DataReady(request, done, predecessors[..n], a),
          FinishOf(done, predecessors[n]) + Delay(request, predecessors[n], a))
  }

  ghost function TransferTotal(request: Request, predecessors: seq<Id>, a: Id): real {
    if predecessors == [] then 0.0 else
      var n := |predecessors| - 1;
      TransferTotal(request, predecessors[..n], a) + Delay(request, predecessors[n], a)
  }

  function Predecessors(request: Request, a: Id): seq<Id> {
    PredecessorsOf(request.dependencies, a)
  }

  /** When the lane becomes free for `a`. */
  function LaneReady(previous: map<Id, Id>, done: Executions, a: Id): real {
    if a in previous then FinishOf(done, previous[a]) else 0.0
  }

  /** The execution that follows from what has finished before. */
  ghost function ExecutionOf(request: Request, previous: map<Id, Id>, done: Executions, a: Id): Execution {
    var ready := DataReady(request, done, Predecessors(request, a), a);
    var start := Max(ready, LaneReady(previous, done, a));
    Execution(a, ResourceId(request, a), ready, start,
              start + Runtime(request, a) + Overhead(request, a),
              Runtime(request, a), Overhead(request, a),
              TransferTotal(request, Predecessors(request, a), a))
  }

  /** The execution that follows from what has finished before and the transfers that were made. */
  function ExecutionWith(
    request: Request, previous: map<Id, Id>, done: Executions, a: Id, transfers: seq<Transfer>): Execution
  {
    var ready := ReadyWith(request, done, Predecessors(request, a), a, transfers);
    var start := Max(ready, LaneReady(previous, done, a));
    Execution(a, ResourceId(request, a), ready, start,
              start + Runtime(request, a) + Overhead(request, a),
              Runtime(request, a), Overhead(request, a), TotalSeconds(transfers))
  }

  /** Everything `a` waits for has run. */
  predicate Ready(request: Request, previous: map<Id, Id>, done: Executions, a: Id) {
    && (forall p <- Predecessors(request, a) :: p in done)
    && (a in previous ==> previous[a] in done)
  }

  /** `a` ran after what it waits for, at the time that follows from it. */
  ghost predicate TimedAt(request: Request, previous: map<Id, Id>, done: Executions, a: Id)
    requires a in done
  {
    Ready(request, previous, done, a) && done[a] == ExecutionOf(request, previous, done, a)
  }

  /** Each execution ran after what it waits for, at the time that follows from it. */
  ghost predicate Timed(request: Request, previous: map<Id, Id>, done: Executions) {
    forall a <- done :: TimedAt(request, previous, done, a)
  }

  /** All waits of the plan: dependencies and lane order. */
  function Waits(request: Request, previous: map<Id, Id>): Edges {
    DependencyEdges(request.dependencies) + LaneEdges(previous)
  }

  ghost predicate Routable(request: Request, a: Id) {
    forall p <- Predecessors(request, a) :: PathExists(request, p, a)
  }

  /** Every transfer the plan needs has a network path. */
  ghost predicate PathsExist(request: Request) {
    forall a <- request.order :: Routable(request, a)
  }

  /** The whole plan has run and every time follows from the others. */
  ghost predicate Solves(request: Request, previous: map<Id, Id>, done: Executions) {
    done.Keys == ToSet(request.order) && Timed(request, previous, done)
  }

  // ---------- Resolving transfers ----------

  predicate Sane(request: Request) {
    forall l <- request.links :: l.latency >= 0.0
  }

  lemma PathTimeIs(links: seq<Link>, a: Id, b: Id, bytes: int, t: real)
    requires ShortestTime(links, Seconds(links, bytes), a, b, t)
    ensures PathTime(links, a, b, bytes) == t
  {
  }

  /**
   `t` moves the data of `p` to `a` as soon as `p` has finished, along one route and, unless latencies
   are negative, a fastest one.
   */
  ghost predicate Carries(request: Request, done: Executions, p: Id, a: Id, t: Transfer) {
    var bytes := DataBytes(request.dataDependencies, p, a);
    var source, target := ResourceId(request, p), ResourceId(request, a);
    && t.producer == p && t.consumer == a && t.bytes == bytes
    && t.start == FinishOf(done, p) && (Sane(request) ==> t.seconds == Delay(request, p, a))
    && Priced(request.links, source, target, bytes, t.seconds, t.cost)
  }

  /** Some route takes `seconds` and costs `cost`. */
  ghost predicate Priced(links: seq<Link>, a: Id, b: Id, bytes: int, seconds: real, cost: real) {
    exists route :: Route(links, route, a, b) && Total(Seconds(links, bytes), route) == seconds
                    && Total(Prices(links, bytes), route) == cost
  }

  /** One transfer for each predecessor whose data must move, in the predecessors' order. */
  ghost predicate Carried(request: Request, done: Executions, predecessors: seq<Id>, a: Id, transfers: seq<Transfer>) {
    if predecessors == [] then transfers == [] else
      var n, k := |predecessors| - 1, |transfers| - 1;
      if NeedsTransfer(request, predecessors[n], a)
      then k >= 0 && Carries(request, done, predecessors[n], a, transfers[k])
           && Carried(request, done, predecessors[..n], a, transfers[..k])
      else Carried(request, done, predecessors[..n], a, transfers)
  }

  lemma CarryOne(request: Request, done: Executions, predecessors: seq<Id>, i: nat, a: Id, transfers: seq<Transfer>,
                 moved: seq<Transfer>)
    requires i < |predecessors| && Carried(request, done, predecessors[..i], a, transfers)
    requires if NeedsTransfer(request, predecessors[i], a)
             then |moved| == 1 && Carries(request, done, predecessors[i], a, moved[0])
             else moved == []
    ensures Carried(request, done, predecessors[..i + 1], a, transfers + moved)
  {
    assert predecessors[..i + 1][..i] == predecessors[..i];
    if moved == [] {
      assert transfers + moved == transfers;
    } else {
      assert (transfers + moved)[..|transfers|] == transfers;
    }
  }

  function TotalSeconds(transfers: seq<Transfer>): real {
    if transfers == [] then 0.0 else TotalSeconds(transfers[..|transfers| - 1]) + transfers[|transfers| - 1].seconds
  }

  /** When the data of all predecessors has arrived, given the transfers that were made. */
  function ReadyWith(request: Request, done: Executions, predecessors: seq<Id>, a: Id, transfers: seq<Transfer>): real {
    if predecessors == [] then 0.0 else
      var n, k := |predecessors| - 1, |transfers| - 1;
      if NeedsTransfer(request, predecessors[n], a) && k >= 0
      then Max(ReadyWith(request, done, predecessors[..n], a, transfers[..k]),
               FinishOf(done, predecessors[n]) + transfers[k].seconds)
      else Max(ReadyWith(request, done, predecessors[..n], a, transfers), FinishOf(done, predecessors[n]))
  }

  /** Without negative latencies the transfers made take the shortest possible times. */
  lemma {:induction false} FastestTransfers(
    request: Request, done: Executions, predecessors: seq<Id>, a: Id, transfers: seq<Transfer>)
    requires Sane(request) && Carried(request, done, predecessors, a, transfers)
    ensures ReadyWith(request, done, predecessors, a, transfers) == DataReady(request, done, predecessors, a)
    ensures TotalSeconds(transfers) == TransferTotal(request, predecessors, a)
  {
    hide Sane;
    if predecessors != [] {
      var n, k := |predecessors| - 1, |transfers| - 1;
      if NeedsTransfer(request, predecessors[n], a) {
        FastestTransfers(request, done, predecessors[..n], a, transfers[..k]);
      } else {
        FastestTransfers(request, done, predecessors[..n], a, transfers);
      }
    }
  }

  lemma ReadyOneMore(request: Request, done: Executions, predecessors: seq<Id>, i: nat, a: Id, transfers: seq<Transfer>,
                     moved: seq<Transfer>, seconds: real)
    requires i < |predecessors|
    requires if NeedsTransfer(request, predecessors[i], a) then |moved| == 1 && moved[0].seconds == seconds
             else moved == [] && seconds == 0.0
    ensures ReadyWith(request, done, predecessors[..i + 1], a, transfers + moved)
         == Max(ReadyWith(request, done, predecessors[..i], a, transfers), FinishOf(done, predecessors[i]) + seconds)
    ensures TotalSeconds(transfers + moved) == TotalSeconds(transfers) + seconds
  {
    hide NeedsTransfer;
    assert predecessors[..i + 1][..i] == predecessors[..i];
    if moved == [] {
      assert transfers + moved == transfers;
    } else {
      assert (transfers + moved)[..|transfers|] == transfers;
    }
  }

  /** Moves the data of one predecessor, if it must move at all. */
  method ResolveTransfer(request: Request, bytesOf: map<(Id, Id), int>, a: Id, p: Id, done: Executions)
    returns (ok: bool, seconds: real, moved: seq<Transfer>)
    requires Moved(bytesOf, p, a) == DataBytes(request.dataDependencies, p, a)
    requires p in done && done[p].resource == ResourceId(request, p)
    ensures ok <==> PathExists(request, p, a)
    ensures ok && Sane(request) ==> seconds == Delay(request, p, a)
    ensures ok ==> if NeedsTransfer(request, p, a)
                   then |moved| == 1 && Carries(request, done, p, a, moved[0]) && moved[0].seconds == seconds
                   else moved == [] && seconds == 0.0
  {
    var source, target, bytes := done[p].resource, ResourceId(request, a), Moved(bytesOf, p, a);
    if source == target || bytes <= 0 {
      return true, 0.0, [];
    }
    var cost;
    ghost var route;
    seconds, cost, ok, route := ResolveNetworkPath(request.links, source, target, bytes);
    if ok {
      if Sane(request) {
        NonNegativeLatencies(request.links, bytes);
        PathTimeIs(request.links, source, target, bytes, seconds);
      }
      moved := [Transfer(p, a, bytes, done[p].finish, seconds, cost)];
      assert Priced(request.links, source, target, bytes, seconds, cost);
    } else {
      moved := [];
    }
  }

  method ResolveTransfers(request: Request, bytesOf: map<(Id, Id), int>, a: Id, predecessors: seq<Id>, done: Executions)
    returns (ok: bool, dataReady: real, total: real, transfers: seq<Transfer>)
    requires forall p :: Moved(bytesOf, p, a) == DataBytes(request.dataDependencies, p, a)
    requires forall p <- predecessors :: p in done && done[p].resource == ResourceId(request, p)
    ensures ok <==> forall p <- predecessors :: PathExists(request, p, a)
    ensures ok ==> Carried(request, done, predecessors, a, transfers)
    ensures ok ==> dataReady == ReadyWith(request, done, predecessors, a, transfers) && total == TotalSeconds(transfers)
    ensures !ok ==> dataReady == total == 0.0 && transfers == []
    ensures ok && Sane(request) ==> dataReady == DataReady(request, done, predecessors, a)
    ensures ok && Sane(request) ==> total == TransferTotal(request, predecessors, a)
  {
    dataReady, total, transfers := 0.0, 0.0, [];
    assert Carried(request, done, predecessors[..0], a, transfers);
    assert dataReady == ReadyWith(request, done, predecessors[..0], a, transfers) && total == TotalSeconds(transfers);
    hide *;
    for i := 0 to |predecessors|
      invariant forall p <- predecessors[..i] :: PathExists(request, p, a)
      invariant Carried(request, done, predecessors[..i], a, transfers)
      invariant dataReady == ReadyWith(request, done, predecessors[..i], a, transfers)
      invariant total == TotalSeconds(transfers)
    {
      var p := predecessors[i];
      assert predecessors[..i + 1] == predecessors[..i] + [p];
      FinishOfDone(done, p);
      var found, seconds, moved := ResolveTransfer(request, bytesOf, a, p, done);
      if !found {
        return false, 0.0, 0.0, [];
      }
      CarryOne(request, done, predecessors, i, a, transfers, moved);
      ReadyOneMore(request, done, predecessors, i, a, transfers, moved, seconds);
      transfers, total := transfers + moved, total + seconds;
      dataReady := Max(dataReady, done[p].finish + seconds);
    }
    assert predecessors[..|predecessors|] == predecessors;
    if Sane(request) {
      FastestTransfers(request, done, predecessors, a, transfers);
    }
    ok := true;
  }

  lemma FinishOfDone(done: Executions, p: Id)
    requires p in done
    ensures FinishOf(done, p) == done[p].finish
  {
  }

  function Moved(bytesOf: map<(Id, Id), int>, p: Id, a: Id): int {
    if (p, a) in bytesOf then bytesOf[(p, a)] else 0
  }

  method IndexBytes(dataDependencies: seq<DataDependency>) returns (bytesOf: map<(Id, Id), int>)
    ensures forall p, a :: Moved(bytesOf, p, a) == DataBytes(dataDependencies, p, a)
  {
    bytesOf := map[];
    for i := 0 to |dataDependencies|
      invariant forall p, a :: Moved(bytesOf, p, a) == DataBytes(dataDependencies[..i], p, a)
    {
      var d := dataDependencies[i];
      assert dataDependencies[..i + 1][..i] == dataDependencies[..i];
      bytesOf := bytesOf[(d.producer, d.consumer) := Moved(bytesOf, d.producer, d.consumer) + d.bytes];
    }
    assert dataDependencies[..|dataDependencies|] == dataDependencies;
  }

  // ---------- Growing a schedule ----------

  lemma {:induction false} DataReadyGrows(
    request: Request, done: Executions, more: Executions, predecessors: seq<Id>, a: Id)
    requires forall p <- predecessors :: p in done && p in more && done[p].finish == more[p].finish
    ensures DataReady(request, done, predecessors, a) == DataReady(request, more, predecessors, a)
  {
    if predecessors != [] {
      var n := |predecessors| - 1;
      assert predecessors[n] in predecessors;
      DataReadyGrows(request, done, more, predecessors[..n], a);
    }
  }

  /** What has run keeps its times when `x` runs as well. */
  lemma KeepsTime(request: Request, previous: map<Id, Id>, done: Executions, x: Id, e: Execution, a: Id)
    requires x !in done && Ready(request, previous, done, a)
    ensures ExecutionOf(request, previous, done[x := e], a) == ExecutionOf(request, previous, done, a)
    ensures Ready(request, previous, done[x := e], a)
  {
    DataReadyGrows(request, done, done[x := e], Predecessors(request, a), a);
  }

  /** Running one more ready activity leaves all earlier times as they are. */
  lemma TimedGrows(request: Request, previous: map<Id, Id>, done: Executions, x: Id)
    requires Timed(request, previous, done) && x !in done && Ready(request, previous, done, x)
    ensures Timed(request, previous, done[x := ExecutionOf(request, previous, done, x)])
  {
    var e := ExecutionOf(request, previous, done, x);
    var more := done[x := e];
    forall a <- more ensures TimedAt(request, previous, more, a) {
      assert a in done ==> TimedAt(request, previous, done, a);
      KeepsTime(request, previous, done, x, e, a);
    }
  }
}
