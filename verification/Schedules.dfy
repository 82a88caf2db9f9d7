/** What the simulated times mean: laws about every solution of a plan. */
module Schedules {
  import opened Graphs
  import opened Outcomes
  import opened Dependencies
  import opened Lanes
  import opened LaneOrder
  import opened Simulation
  import opened Shipments
  import opened Simulator
  import opened Validator
  import opened PlanCheck

  // ---------- The times are determined by the plan ----------

  lemma PredecessorRank(request: Request, previous: map<Id, Id>, rank: map<Id, nat>, a: Id)
    requires Topological(Waits(request, previous), rank)
    ensures forall p <- Predecessors(request, a) :: p in rank && a in rank && rank[p] < rank[a]
    ensures a in previous ==> previous[a] in rank && a in rank && rank[previous[a]] < rank[a]
  {
    PredecessorsAreEdges(request.dependencies, a);
    forall p <- Predecessors(request, a) ensures p in rank && a in rank && rank[p] < rank[a] {
      assert (p, a) in Waits(request, previous);
    }
    assert a in previous ==> (previous[a], a) in LaneEdges(previous);
  }

  /** Two solutions agree on every activity, by induction along the waits. */
  lemma {:induction false} SameExecution(
    request: Request, previous: map<Id, Id>, x: Executions, y: Executions, rank: map<Id, nat>, a: Id)
    requires Timed(request, previous, x) && Timed(request, previous, y) && a in x && a in y
    requires Topological(Waits(request, previous), rank)
    ensures x[a] == y[a]
    decreases if a in rank then rank[a] else 0
  {
    assert TimedAt(request, previous, x, a) && TimedAt(request, previous, y, a);
    PredecessorRank(request, previous, rank, a);
    forall p <- Predecessors(request, a) ensures x[p] == y[p] {
      SameExecution(request, previous, x, y, rank, p);
    }
    DataReadyGrows(request, x, y, Predecessors(request, a), a);
    if a in previous {
      SameExecution(request, previous, x, y, rank, previous[a]);
    }
  }

  lemma RankOf(request: Request, previous: map<Id, Id>) returns (rank: map<Id, nat>)
    requires WellPosed(request, previous) && !HasCycle(Waits(request, previous))
    ensures Topological(Waits(request, previous), rank)
  {
    rank := AcyclicIsRanked(Waits(request, previous), ToSet(request.order));
  }

  /** A plan without a cycle of waits has at most one solution. */
  lemma TimesAreUnique(request: Request, previous: map<Id, Id>, x: Executions, y: Executions)
    requires WellPosed(request, previous) && !HasCycle(Waits(request, previous))
    requires Solves(request, previous, x) && Solves(request, previous, y)
    ensures x == y
  {
    var rank := RankOf(request, previous);
    forall a <- x ensures x[a] == y[a] {
      SameExecution(request, previous, x, y, rank, a);
    }
  }

  lemma {:induction false} ReorderedReady(
    request: Request, order: seq<Id>, done: Executions, predecessors: seq<Id>, a: Id)
    ensures DataReady(request.(order := order), done, predecessors, a) == DataReady(request, done, predecessors, a)
    ensures TransferTotal(request.(order := order), predecessors, a) == TransferTotal(request, predecessors, a)
  {
    if predecessors != [] {
      ReorderedReady(request, order, done, predecessors[..|predecessors| - 1], a);
    }
  }

  lemma ReorderedTimes(
    request: Request, order: seq<Id>, previous: map<Id, Id>, x: Executions, y: Executions)
    requires WellPosed(request, previous) && !HasCycle(Waits(request, previous))
    requires ToSet(order) == ToSet(request.order)
    requires Solves(request, previous, x) && Solves(request.(order := order), previous, y)
    ensures x == y
  {
    var other := request.(order := order);
    forall a <- y ensures TimedAt(request, previous, y, a) {
      assert TimedAt(other, previous, y, a);
      ReorderedReady(request, order, y, Predecessors(request, a), a);
    }
    TimesAreUnique(request, previous, x, y);
  }

  /** A validated plan and its simulated executions. */
  ghost predicate Performs(request: Request, previous: map<Id, Id>, done: Executions) {
    && AssignedOnce(request.assignments) && LanesOrdered(request.assignments)
    && LanePrevious(request.assignments, previous)
    && WellPosed(request, previous) && !HasCycle(Waits(request, previous))
    && Solves(request, previous, done)
  }

  /** Listing the activities in another order changes no time, whatever order maps are walked in. */
  lemma OrderDoesNotMatter(
    request: Request, order: seq<Id>, previous: map<Id, Id>, x: Executions, previous': map<Id, Id>, y: Executions)
    requires ToSet(order) == ToSet(request.order)
    requires Performs(request, previous, x) && Performs(request.(order := order), previous', y)
    ensures x == y && previous == previous'
  {
    LanePreviousIsUnique(request.assignments, previous, previous');
    hide LanePrevious, AssignedOnce, LanesOrdered, WellPosed, HasCycle, Solves;
    ReorderedTimes(request, order, previous, x, y);
  }

  // ---------- The times are the earliest possible ----------

  /** Any assignment of start times that obeys the same waits, with any slack. */
  ghost predicate Obeys(request: Request, previous: map<Id, Id>, starts: map<Id, real>) {
    && starts.Keys == ToSet(request.order)
    && (forall a <- starts :: starts[a] >= 0.0)
    && (forall a <- starts, p <- Predecessors(request, a) ::
          p in starts && starts[a] >= starts[p] + Duration(request, p) + Delay(request, p, a))
    && (forall a <- starts :: a in previous ==>
          previous[a] in starts && starts[a] >= starts[previous[a]] + Duration(request, previous[a]))
  }

  lemma {:induction false} DataReadyBelow(
    request: Request, done: Executions, predecessors: seq<Id>, a: Id, bound: real)
    requires bound >= 0.0
    requires forall p <- predecessors :: FinishOf(done, p) + Delay(request, p, a) <= bound
    ensures DataReady(request, done, predecessors, a) <= bound
  {
    if predecessors != [] {
      var n := |predecessors| - 1;
      assert predecessors[n] in predecessors;
      DataReadyBelow(request, done, predecessors[..n], a, bound);
    }
  }

  lemma {:induction false} NotEarlier(
    request: Request, previous: map<Id, Id>, done: Executions, starts: map<Id, real>, rank: map<Id, nat>, a: Id)
    requires Timed(request, previous, done) && a in done && done.Keys == starts.Keys
    requires Obeys(request, previous, starts) && Topological(Waits(request, previous), rank)
    ensures done[a].start <= starts[a] && done[a].finish <= starts[a] + Duration(request, a)
    decreases if a in rank then rank[a] else 0
  {
    assert TimedAt(request, previous, done, a);
    PredecessorRank(request, previous, rank, a);
    forall p <- Predecessors(request, a) ensures FinishOf(done, p) + Delay(request, p, a) <= starts[a] {
      NotEarlier(request, previous, done, starts, rank, p);
    }
    DataReadyBelow(request, done, Predecessors(request, a), a, starts[a]);
    if a in previous {
      NotEarlier(request, previous, done, starts, rank, previous[a]);
    }
  }

  /** No schedule that obeys the waits starts or finishes any activity earlier than the simulator. */
  lemma SimulationIsEarliest(request: Request, previous: map<Id, Id>, done: Executions, starts: map<Id, real>)
    requires WellPosed(request, previous) && !HasCycle(Waits(request, previous))
    requires Solves(request, previous, done) && Obeys(request, previous, starts)
    ensures forall a <- done :: done[a].start <= starts[a] && done[a].finish <= starts[a] + Duration(request, a)
  {
    var rank := RankOf(request, previous);
    forall a <- done ensures done[a].start <= starts[a] && done[a].finish <= starts[a] + Duration(request, a) {
      NotEarlier(request, previous, done, starts, rank, a);
    }
  }

  /** When `a` ran, everything it waits for had finished. */
  lemma RanAfterItsWaits(request: Request, previous: map<Id, Id>, done: Executions, a: Id)
    requires Timed(request, previous, done) && a in done
    ensures done[a].start >= 0.0 && done[a].finish == done[a].start + Duration(request, a)
    ensures forall p <- Predecessors(request, a) :: p in done && done[a].start >= done[p].finish + Delay(request, p, a)
    ensures a in previous ==> previous[a] in done && done[a].start >= done[previous[a]].finish
  {
    assert TimedAt(request, previous, done, a);
    DataReadyAbove(request, done, Predecessors(request, a), a);
  }

  /** The simulated starts themselves obey the waits, so the bound is attained. */
  lemma SimulationObeys(request: Request, previous: map<Id, Id>, done: Executions)
    requires Solves(request, previous, done)
    ensures Obeys(request, previous, map a | a in done :: done[a].start)
  {
    hide Timed;
    hide Delay;
    hide Duration;
    forall a <- done {
      RanAfterItsWaits(request, previous, done, a);
    }
  }

  lemma {:induction false} DataReadyAbove(request: Request, done: Executions, predecessors: seq<Id>, a: Id)
    ensures DataReady(request, done, predecessors, a) >= 0.0
    ensures forall p <- predecessors ::
              DataReady(request, done, predecessors, a) >= FinishOf(done, p) + Delay(request, p, a)
  {
    if predecessors != [] {
      var n := |predecessors| - 1;
      DataReadyAbove(request, done, predecessors[..n], a);
      assert predecessors == predecessors[..n] + [predecessors[n]];
    }
  }

  // ---------- Lanes never overlap ----------

  /** On one lane, an activity finishes before any later one starts, not only before its neighbour. */
  lemma {:induction false} LanesDoNotOverlap(
    request: Request, previous: map<Id, Id>, done: Executions, a: Assignment, b: Assignment)
    requires LanePrevious(request.assignments, previous) && Solves(request, previous, done)
    requires a in request.assignments && b in request.assignments && a.lane == b.lane && a.order < b.order
    requires LanesOrdered(request.assignments)
    requires forall x <- request.assignments :: x.activity in done && Duration(request, x.activity) >= 0.0
    ensures done[a.activity].finish <= done[b.activity].start
    decreases b.order - a.order
  {
    hide Timed;
    assert Placed(request.assignments, previous, b);
    RanAfterItsWaits(request, previous, done, b.activity);
    var p :| JustBefore(request.assignments, p, b) && p.activity == previous[b.activity];
    if p.order > a.order {
      LanesDoNotOverlap(request, previous, done, a, p);
      RanAfterItsWaits(request, previous, done, p.activity);
    } else {
      SamePlace(request.assignments, a, p);
    }
  }

  // ---------- From the validator to the trace ----------

  lemma AcceptedIsWellPosed(request: Request, scope: set<Id>, previous: map<Id, Id>)
    requires Distinct(request.order) && ToSet(request.order) == request.activities.Keys
    requires Accepted(request.activities, request.dependencies, request.resources, scope, request.assignments)
    requires LanePrevious(request.assignments, previous)
    ensures WellPosed(request, previous)
  {
  }

  /** For an accepted plan, only repeated activities and cycles through lanes can get in the way. */
  lemma AcceptedRuns(request: Request, scope: set<Id>, previous: map<Id, Id>)
    requires ToSet(request.order) == request.activities.Keys
    requires Accepted(request.activities, request.dependencies, request.resources, scope, request.assignments)
    requires LanePrevious(request.assignments, previous)
    ensures Runnable(request, previous) <==> Distinct(request.order) && !HasCycle(Waits(request, previous))
  {
    if Distinct(request.order) {
      AcceptedIsWellPosed(request, scope, previous);
      WellPosedIsRunnable(request, previous);
    }
  }

  datatype ExecuteError = Invalid(plan: PlanError) | Failed(simulation: SimulationError)

  /** Validate, index, simulate: the whole path from a request to its executions. */
  method Execute(header: Header, request: Request, scope: set<Id>)
    returns (r: Result<Executions, ExecuteError>, transfers: seq<Transfer>, ghost previous: map<Id, Id>)
    requires ToSet(request.order) == request.activities.Keys
    ensures r.Ok? <==>
              && HeaderMatches(header)
              && Accepted(request.activities, request.dependencies, request.resources, scope, request.assignments)
              && Distinct(request.order) && !HasCycle(Waits(request, previous)) && PathsExist(request)
    ensures r.Ok? ==> r.value.Keys == ToSet(request.order) && Shipped(request, previous, r.value, transfers)
    ensures r.Ok? && Sane(request) ==> Performs(request, previous, r.value)
    ensures (r.Err? && r.error.Invalid?) <==>
              !(HeaderMatches(header)
                && Accepted(request.activities, request.dependencies, request.resources, scope, request.assignments))
    ensures !(r.Err? && r.error.Invalid?) ==> LanePrevious(request.assignments, previous)
    ensures r == Err(Failed(Stalled)) ==> !Distinct(request.order) || HasCycle(Waits(request, previous))
    ensures r == Err(Failed(NoPath)) ==> !PathsExist(request)
  {
    var fault := Validate(header, request.order, request.activities, request.dependencies, request.resources, scope,
                          request.assignments);
    if fault.Some? {
      return Err(Invalid(fault.value)), [], map[];
    }
    AcceptedIsTidy(request, scope);
    hide *;
    var index, _, _ := IndexRequest(request);
    previous := index.previous;
    AcceptedRuns(request, scope, index.previous);
    var simulated, sweeps;
    simulated, transfers, sweeps := Simulate(request, index);
    if simulated.Ok? {
      AcceptedPerforms(request, scope, previous);
    }
    r := match simulated
         case Ok(done) => Ok(done)
         case Err(e) => Err(Failed(e));
  }

  lemma AcceptedPerforms(request: Request, scope: set<Id>, previous: map<Id, Id>)
    requires ToSet(request.order) == request.activities.Keys && Distinct(request.order)
    requires Accepted(request.activities, request.dependencies, request.resources, scope, request.assignments)
    requires LanePrevious(request.assignments, previous) && !HasCycle(Waits(request, previous))
    ensures forall done :: Solves(request, previous, done) ==> Performs(request, previous, done)
  {
    AcceptedIsTidy(request, scope);
    AcceptedIsWellPosed(request, scope, previous);
    hide LanePrevious, AssignedOnce, LanesOrdered, WellPosed, HasCycle, Solves, Waits, Accepted;
  }

  lemma AcceptedIsTidy(request: Request, scope: set<Id>)
    requires Accepted(request.activities, request.dependencies, request.resources, scope, request.assignments)
    ensures AssignedOnce(request.assignments) && LanesOrdered(request.assignments)
  {
  }

  // ---------- The validator does not see cycles across lanes ----------

  function OnLane(activity: Id, resource: Id, order: int): Assignment {
    Assignment(activity, Lane(resource, "", ""), order, 0.0, 0.0, false, None, None)
  }

  /** `b` follows `a` on one lane, but `a` needs `c`, which needs `b`. */
  function DetourPlan(): Request {
    Request(
      ["a", "b", "c"],
      map["a" := NO_ACTIVITY, "b" := NO_ACTIVITY, "c" := NO_ACTIVITY],
      [Dependency("a", "c"), Dependency("c", "b")], [],
      [OnLane("a", "x", 1), OnLane("b", "x", 2), OnLane("c", "y", 1)],
      map["x" := NO_RESOURCE.(environmentVersion := "v", schedulable := true),
          "y" := NO_RESOURCE.(environmentVersion := "v", schedulable := true)],
      map[], [])
  }

  lemma DetourIsCovered()
    ensures var r := DetourPlan(); Covers(r.activities, r.resources, {"v"}, r.assignments)
  {
    var all := DetourPlan().assignments;
    assert all[0] in all && all[1] in all && all[2] in all;
  }

  lemma DetourOrders()
    ensures var r := DetourPlan(); OrdersAccepted(r.assignments, r.dependencies)
  {
    var all := DetourPlan().assignments;
    assert all[0] in all && all[1] in all && all[2] in all;
    AssignmentOfMember(all, all[0]);
    AssignmentOfMember(all, all[1]);
    AssignmentOfMember(all, all[2]);
  }

  lemma DetourDependencies()
    ensures var r := DetourPlan();
            AllKnown(r.activities.Keys, r.dependencies) && !HasCycle(DependencyEdges(r.dependencies))
  {
    RankedIsAcyclic(DependencyEdges(DetourPlan().dependencies), map["b" := 0, "c" := 1, "a" := 2]);
  }

  lemma DetourLane(previous: map<Id, Id>)
    requires LanePrevious(DetourPlan().assignments, previous)
    ensures ("a", "b") in LaneEdges(previous)
  {
    hide LanePrevious;
    hide LaneEdges;
    var all := DetourPlan().assignments;
    DetourOrders();
    assert all[0] in all && all[1] in all;
    NeighbourEdge(all, previous, all[0], all[1]);
  }

  lemma DetourStalls(previous: map<Id, Id>)
    requires LanePrevious(DetourPlan().assignments, previous)
    ensures HasCycle(Waits(DetourPlan(), previous))
  {
    hide LanePrevious;
    var r := DetourPlan();
    DetourLane(previous);
    assert r.dependencies[0] in r.dependencies && r.dependencies[1] in r.dependencies;
    TriangleIsCycle(Waits(r, previous), "a", "b", "c");
  }

  lemma DetourIsAccepted()
    ensures var r := DetourPlan(); Accepted(r.activities, r.dependencies, r.resources, {"v"}, r.assignments)
  {
    DetourIsCovered();
    DetourOrders();
    DetourDependencies();
    hide Covers, OrdersAccepted, AllKnown, HasCycle;
  }

  /** A plan can pass validation and still never finish: the validator only sees direct same-lane waits. */
  lemma AcceptedPlanMayStall()
    ensures var r := DetourPlan();
            && Accepted(r.activities, r.dependencies, r.resources, {"v"}, r.assignments)
            && forall previous :: LanePrevious(r.assignments, previous) ==> HasCycle(Waits(r, previous))
  {
    DetourIsAccepted();
    hide *;
    var r := DetourPlan();
    forall previous | LanePrevious(r.assignments, previous) ensures HasCycle(Waits(r, previous)) {
      DetourStalls(previous);
    }
  }
}
