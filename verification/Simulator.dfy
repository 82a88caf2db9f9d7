/** The simulator's loop and what its result means. */
module Simulator {
  import opened Graphs
  import opened Reals
  import opened Outcomes
  import opened Dependencies
  import opened Lanes
  import opened LaneOrder
  import opened Simulation
  import opened Shipments

  datatype SimulationError = NoPath | Stalled

  datatype Index = Index(
    assignments: map<Id, Assignment>,
    predecessors: map<Id, seq<Id>>,
    bytesOf: map<(Id, Id), int>,
    previous: map<Id, Id>
  )

  /** The lookup tables answer like the records they were built from. */
  ghost predicate Indexes(index: Index, request: Request) {
    && (forall x :: Assigned(index.assignments, x) == AssignmentOf(request.assignments, x))
    && (forall x :: Lookup(index.predecessors, x) == Predecessors(request, x))
    && (forall p, a :: Moved(index.bytesOf, p, a) == DataBytes(request.dataDependencies, p, a))
  }

  method IndexRequest(request: Request)
    returns (index: Index, ghost lanes: seq<Lane>, ghost lists: seq<seq<Assignment>>)
    ensures Indexes(index, request)
    ensures forall x :: x in index.assignments <==> Assigns(request.assignments, x)
    ensures LinksLanes(request.assignments, lanes, lists, index.previous)
    ensures forall lane :: lane in lanes <==> HasLane(request.assignments, lane)
    ensures AssignedOnce(request.assignments) && LanesOrdered(request.assignments) ==>
              LanePrevious(request.assignments, index.previous)
  {
    var assignments := IndexAssignments(request.assignments);
    var predecessors := IndexPredecessors(request.dependencies);
    var bytesOf := IndexBytes(request.dataDependencies);
    var previous;
    previous, lanes, lists := IndexLanes(request.assignments);
    index := Index(assignments, predecessors, bytesOf, previous);
  }

  /** Activities are listed once and all waits are between activities. */
  ghost predicate WellPosed(request: Request, previous: map<Id, Id>) {
    && Distinct(request.order)
    && forall e <- Waits(request, previous) :: e.0 in request.order && e.1 in request.order
  }

  /** No activity waits for something that is not an activity. */
  ghost predicate Grounded(request: Request, previous: map<Id, Id>) {
    forall e <- Waits(request, previous) :: e.1 in request.order ==> e.0 in request.order
  }

  /** The waits between activities. */
  ghost function OwnWaits(request: Request, previous: map<Id, Id>): Edges {
    Among(Waits(request, previous), ToSet(request.order))
  }

  /** Everything can run: activities are listed once, wait only for activities, and not in a circle. */
  ghost predicate Runnable(request: Request, previous: map<Id, Id>) {
    Distinct(request.order) && Grounded(request, previous) && !HasCycle(OwnWaits(request, previous))
  }

  lemma WellPosedIsRunnable(request: Request, previous: map<Id, Id>)
    requires WellPosed(request, previous)
    ensures Runnable(request, previous) <==> !HasCycle(Waits(request, previous))
  {
    assert OwnWaits(request, previous) == Waits(request, previous);
  }

  ghost predicate Routed(request: Request, done: set<Id>) {
    forall a <- done :: Routable(request, a)
  }

  /** What holds between any two steps; `rank` is the order in which activities ran. */
  ghost predicate Consistent(request: Request, previous: map<Id, Id>, done: Executions, rank: map<Id, nat>) {
    && done.Keys <= ToSet(request.order)
    && Routed(request, done.Keys)
    && Finished(Waits(request, previous), done.Keys, rank)
  }

  lemma ReadyIsEdges(request: Request, previous: map<Id, Id>, done: Executions, a: Id)
    ensures Ready(request, previous, done, a) <==> forall e <- Waits(request, previous) :: e.1 == a ==> e.0 in done
  {
    PredecessorsAreEdges(request.dependencies, a);
    if forall e <- Waits(request, previous) :: e.1 == a ==> e.0 in done {
      forall p <- Predecessors(request, a) ensures p in done {
        assert (p, a) in Waits(request, previous);
      }
      assert a in previous ==> (previous[a], a) in LaneEdges(previous);
    }
  }

  lemma RunOne(request: Request, previous: map<Id, Id>, done: Executions, rank: map<Id, nat>, a: Id, e: Execution)
    requires Consistent(request, previous, done, rank) && a in request.order && a !in done
    requires Ready(request, previous, done, a) && Routable(request, a)
    ensures Consistent(request, previous, done[a := e], rank[a := |done.Keys|])
  {
    FinishOneMore(request, previous, done, rank, a);
    hide Finished, Waits, Routable, Ready;
    assert done[a := e].Keys == done.Keys + {a};
  }

  lemma FinishOneMore(request: Request, previous: map<Id, Id>, done: Executions, rank: map<Id, nat>, a: Id)
    requires Finished(Waits(request, previous), done.Keys, rank) && a !in done && Ready(request, previous, done, a)
    ensures Finished(Waits(request, previous), done.Keys + {a}, rank[a := |done.Keys|])
  {
    ReadyIsEdges(request, previous, done, a);
    hide Waits, Ready, Finished;
    FinishNext(Waits(request, previous), done.Keys, rank, a);
  }

  datatype Attempt = Blocked | Unroutable | Ran(execution: Execution, transfers: seq<Transfer>)

  method TryRun(request: Request, index: Index, done: Executions, a: Id) returns (r: Attempt)
    requires Indexes(index, request)
    requires forall p <- done :: done[p].resource == ResourceId(request, p)
    ensures r.Blocked? <==> !Ready(request, index.previous, done, a)
    ensures r.Unroutable? ==> !Routable(request, a)
    ensures r.Ran? ==> Routable(request, a)
    ensures r.Ran? ==> Carried(request, done, Predecessors(request, a), a, r.transfers)
    ensures r.Ran? ==> r.execution == ExecutionWith(request, index.previous, done, a, r.transfers)
    ensures r.Ran? && Sane(request) ==> r.execution == ExecutionOf(request, index.previous, done, a)
  {
    hide DataReady, TransferTotal, ReadyWith, TotalSeconds, Carried, Routable, Executed;
    hide ExecutionWith, ExecutionOf, Sane;
    var predecessors := Lookup(index.predecessors, a);
    assert predecessors == Predecessors(request, a);
    if exists p <- predecessors :: p !in done {
      return Blocked;
    }
    if a in index.previous && index.previous[a] !in done {
      return Blocked;
    }
    RoutableMeans(request, a);
    var ok, dataReady, total, transfers := ResolveTransfers(request, index.bytesOf, a, predecessors, done);
    if !ok {
      return Unroutable;
    }
    var laneReady := if a in index.previous then done[index.previous[a]].finish else 0.0;
    ExecutedFollows(request, index.previous, done, a, transfers);
    r := Ran(Executed(request, Assigned(index.assignments, a), a, dataReady, laneReady, total), transfers);
  }

  lemma RoutableMeans(request: Request, a: Id)
    ensures Routable(request, a) <==> forall p <- Predecessors(request, a) :: PathExists(request, p, a)
  {
  }

  /** The execution of `a` under its assignment, once its data and its lane are ready. */
  function Executed(
    request: Request, assignment: Assignment, a: Id, dataReady: real, laneReady: real, total: real): Execution
  {
    var resourceId := KnownId(request.resources, assignment.lane.resource);
    var resource := KnownResource(request.resources, assignment.lane.resource);
    var start := Max(dataReady, laneReady);
    var runtime := ResolveRuntime(ActivityOf(request, a), resourceId, resource, request.profiles);
    var overhead := ResolveOverhead(assignment, resource);
    Execution(a, resourceId, dataReady, start, start + runtime + overhead, runtime, overhead, total)
  }

  lemma ExecutedFollows(request: Request, previous: map<Id, Id>, done: Executions, a: Id, transfers: seq<Transfer>)
    ensures Executed(request, AssignmentOf(request.assignments, a), a,
                     ReadyWith(request, done, Predecessors(request, a), a, transfers), LaneReady(previous, done, a),
                     TotalSeconds(transfers))
         == ExecutionWith(request, previous, done, a, transfers)
    ensures Sane(request) && Carried(request, done, Predecessors(request, a), a, transfers) ==>
              ExecutionWith(request, previous, done, a, transfers) == ExecutionOf(request, previous, done, a)
  {
    hide Sane, Carried;
    if Sane(request) && Carried(request, done, Predecessors(request, a), a, transfers) {
      FastestTransfers(request, done, Predecessors(request, a), a, transfers);
    }
  }

  lemma ResourcesRecorded(request: Request, previous: map<Id, Id>, done: Executions, transfers: seq<Transfer>)
    requires Shipped(request, previous, done, transfers)
    ensures forall p <- done :: done[p].resource == ResourceId(request, p)
  {
    forall p <- done ensures done[p].resource == ResourceId(request, p) {
      assert ShippedAt(request, previous, done, transfers, p);
    }
  }

  lemma UnroutablePlan(request: Request, a: Id)
    requires a in request.order && !Routable(request, a)
    ensures !PathsExist(request)
  {
  }

  /** One sweep over all activities. */
  method Sweep(
    request: Request, index: Index, done0: Executions, transfers0: seq<Transfer>, ghost rank0: map<Id, nat>)
    returns (ok: bool, progress: bool, done: Executions, transfers: seq<Transfer>, ghost rank: map<Id, nat>)
    requires Indexes(index, request)
    requires Consistent(request, index.previous, done0, rank0) && Shipped(request, index.previous, done0, transfers0)
    ensures !ok ==> !PathsExist(request)
    ensures ok ==> Consistent(request, index.previous, done, rank) && |done0| <= |done|
    ensures ok ==> Shipped(request, index.previous, done, transfers)
    ensures ok && progress ==> |done0| < |done|
    ensures ok && !progress ==> done == done0
                                && forall a <- request.order :: a in done || !Ready(request, index.previous, done, a)
  {
    hide *;
    done, transfers, rank, progress := done0, transfers0, rank0, false;
    for i := 0 to |request.order|
      invariant Consistent(request, index.previous, done, rank) && Shipped(request, index.previous, done, transfers)
      invariant if progress then |done0| < |done| else done == done0
      invariant !progress ==> forall k :: 0 <= k < i ==>
                  request.order[k] in done || !Ready(request, index.previous, done, request.order[k])
    {
      var a := request.order[i];
      if a in done {
        continue;
      }
      ResourcesRecorded(request, index.previous, done, transfers);
      var attempt := TryRun(request, index, done, a);
      match attempt {
        case Blocked =>
        case Unroutable =>
          UnroutablePlan(request, a);
          return false, progress, done, transfers, rank;
        case Ran(execution, moved) =>
          RunOne(request, index.previous, done, rank, a, execution);
          ShipOne(request, index.previous, done, transfers, a, moved);
          ghost var before := done;
          rank := rank[a := |done.Keys|];
          done, transfers, progress := done[a := execution], transfers + moved, true;
          assert done.Keys == before.Keys + {a} && |done.Keys| == |before.Keys| + 1;
      }
    }
    ok := true;
  }

  lemma StalledIsNotRunnable(request: Request, previous: map<Id, Id>, done: Executions)
    requires done.Keys <= ToSet(request.order) && |done| < |request.order|
    requires forall a <- request.order :: a in done || !Ready(request, previous, done, a)
    ensures !Runnable(request, previous)
  {
    var edges, nodes := OwnWaits(request, previous), ToSet(request.order);
    if Distinct(request.order) && Grounded(request, previous) {
      DistinctSize(request.order);
      assert |done| == |done.Keys|;
      SubsetSize(done.Keys, nodes);
      forall a <- nodes | a !in done ensures HeldBack(edges, nodes, done.Keys, a) {
        ReadyIsEdges(request, previous, done, a);
        var e :| e in Waits(request, previous) && e.1 == a && e.0 !in done;
        assert e in edges;
      }
      NothingLeftMayFinish(edges, nodes, done.Keys);
    }
  }

  lemma FinishedIsRunnable(request: Request, previous: map<Id, Id>, done: Executions, rank: map<Id, nat>)
    requires Consistent(request, previous, done, rank) && |done| >= |request.order|
    ensures done.Keys == ToSet(request.order) && PathsExist(request) && Runnable(request, previous)
  {
    SizeMeansDistinct(request.order);
    assert |done| == |done.Keys|;
    SubsetSize(done.Keys, ToSet(request.order));
    forall a <- request.order ensures Routable(request, a) {
      assert a in done.Keys;
    }
    FinishedAmong(Waits(request, previous), done.Keys, rank, ToSet(request.order));
    AllFinishedIsAcyclic(OwnWaits(request, previous), done.Keys, rank);
  }

  /**
   Runs the plan.  It succeeds exactly when everything can run and every needed path exists, in at
   most one sweep per activity.
   */
  method Simulate(request: Request, index: Index)
    returns (r: Result<Executions, SimulationError>, transfers: seq<Transfer>, sweeps: nat)
    requires Indexes(index, request)
    ensures r.Ok? <==> Runnable(request, index.previous) && PathsExist(request)
    ensures r == Err(Stalled) ==> !Runnable(request, index.previous)
    ensures r == Err(NoPath) ==> !PathsExist(request)
    ensures r.Ok? ==> r.value.Keys == ToSet(request.order) && Shipped(request, index.previous, r.value, transfers)
    ensures r.Ok? && Sane(request) ==> Solves(request, index.previous, r.value)
    ensures sweeps <= |request.order|
  {
    NothingRanYet(request, index.previous);
    hide *;
    var done: Executions := map[];
    transfers, sweeps := [], 0;
    ghost var rank: map<Id, nat> := map[];
    while |done| < |request.order|
      invariant Consistent(request, index.previous, done, rank) && sweeps <= |done|
      invariant Shipped(request, index.previous, done, transfers)
      decreases |request.order| - |done|
    {
      var ok, progress;
      ok, progress, done, transfers, rank := Sweep(request, index, done, transfers, rank);
      sweeps := sweeps + 1;
      if !ok {
        return Err(NoPath), [], sweeps;
      }
      if !progress {
        ConsistentKeys(request, index.previous, done, rank);
        StalledIsNotRunnable(request, index.previous, done);
        return Err(Stalled), [], sweeps;
      }
    }
    ConsistentKeys(request, index.previous, done, rank);
    FinishedIsRunnable(request, index.previous, done, rank);
    if Sane(request) {
      ShippedSolves(request, index.previous, done, transfers);
    }
    r := Ok(done);
  }

  lemma ShippedSolves(request: Request, previous: map<Id, Id>, done: Executions, transfers: seq<Transfer>)
    requires Sane(request) && Shipped(request, previous, done, transfers) && done.Keys == ToSet(request.order)
    ensures Solves(request, previous, done)
  {
    ShippedIsTimed(request, previous, done, transfers);
  }

  lemma NothingRanYet(request: Request, previous: map<Id, Id>)
    ensures Consistent(request, previous, map[], map[]) && Shipped(request, previous, map[], [])
  {
  }

  lemma ConsistentKeys(request: Request, previous: map<Id, Id>, done: Executions, rank: map<Id, nat>)
    requires Consistent(request, previous, done, rank)
    ensures done.Keys <= ToSet(request.order) && |done| <= |request.order|
  {
    SizeMeansDistinct(request.order);
    SubsetSize(done.Keys, ToSet(request.order));
    assert |done| == |done.Keys|;
  }
}
