/** How long the executions of a simulated plan take, in the fields of activities, assignments and resources. */
module Figures {
  import opened Graphs
  import opened Outcomes
  import opened Lanes
  import opened LaneOrder
  import opened Model
  import opened Simulation
  import opened Shipments
  import opened Simulator
  import opened PlanCheck
  import opened Schedules

  // ---------- One execution ----------

  /**
   A base runtime is divided by the speedup of the host, if it has one; otherwise the profile of the
   activity type on the resource counts, then the simulated duration, then nothing.
   */
  ghost predicate RunsFor(
    activity: Activity, resourceId: Id, resource: Resource, profiles: map<(Id, Id), real>, runtime: real)
  {
    var scaled := activity.baseRuntime.Some? && resource.speedup > 0.0;
    var profiled := (activity.typeId, resourceId) in profiles;
    && (scaled ==> runtime * resource.speedup == activity.baseRuntime.value)
    && (!scaled && profiled ==> runtime == profiles[(activity.typeId, resourceId)])
    && (!scaled && !profiled && activity.simulation.Some? ==> runtime == activity.simulation.value.duration)
    && (!scaled && !profiled && activity.simulation.None? ==> runtime == 0.0)
  }

  /** What the assignment says counts, and otherwise what the resource says. */
  ghost predicate Chosen(stated: Option<real>, default: real, value: real) {
    stated == Some(value) || (stated == None && value == default)
  }

  ghost predicate Delayed(x: Assignment, resource: Resource, overhead: real) {
    exists boot, container ::
      && Chosen(x.bootOverhead, resource.bootOverhead, boot)
      && Chosen(x.containerOverhead, resource.containerOverhead, container)
      && overhead == boot + container
  }

  /** The execution of an assigned activity, in fields. */
  ghost predicate Measured(request: Request, x: Assignment, e: Execution) {
    && x.activity in request.activities && x.lane.resource in request.resources
    && e.activity == x.activity && e.resource == x.lane.resource
    && RunsFor(request.activities[x.activity], x.lane.resource, request.resources[x.lane.resource], request.profiles,
               e.runtime)
    && Delayed(x, request.resources[x.lane.resource], e.overhead)
    && e.finish - e.start == e.runtime + e.overhead
    && e.start >= e.dataReady >= 0.0
  }

  lemma RuntimeIs(activity: Activity, resourceId: Id, resource: Resource, profiles: map<(Id, Id), real>)
    ensures RunsFor(activity, resourceId, resource, profiles,
                    ResolveRuntime(activity, resourceId, resource, profiles))
  {
  }

  lemma OverheadIs(x: Assignment, resource: Resource)
    ensures Delayed(x, resource, ResolveOverhead(x, resource))
  {
    var boot := if x.bootOverhead.Some? then x.bootOverhead.value else resource.bootOverhead;
    var container := if x.containerOverhead.Some? then x.containerOverhead.value else resource.containerOverhead;
    assert Chosen(x.bootOverhead, resource.bootOverhead, boot);
    assert Chosen(x.containerOverhead, resource.containerOverhead, container);
  }

  lemma {:induction false} LastAssignment(assignments: seq<Assignment>, i: nat)
    requires i < |assignments|
    requires forall j :: i < j < |assignments| ==> assignments[j].activity != assignments[i].activity
    ensures AssignmentOf(assignments, assignments[i].activity) == assignments[i]
  {
    if i < |assignments| - 1 {
      LastAssignment(assignments[..|assignments| - 1], i);
    }
  }

  lemma {:induction false} ReadyIsNotNegative(
    request: Request, done: Executions, predecessors: seq<Id>, a: Id, transfers: seq<Transfer>)
    ensures ReadyWith(request, done, predecessors, a, transfers) >= 0.0
  {
    if predecessors != [] {
      var n, k := |predecessors| - 1, |transfers| - 1;
      if NeedsTransfer(request, predecessors[n], a) && k >= 0 {
        ReadyIsNotNegative(request, done, predecessors[..n], a, transfers[..k]);
      } else {
        ReadyIsNotNegative(request, done, predecessors[..n], a, transfers);
      }
    }
  }

  /** Every simulated execution has the figures of the last assignment of its activity. */
  lemma SimulatedIsMeasured(
    request: Request, previous: map<Id, Id>, done: Executions, transfers: seq<Transfer>, i: nat)
    requires Shipped(request, previous, done, transfers)
    requires i < |request.assignments| && request.assignments[i].activity in done
    requires forall j :: i < j < |request.assignments| ==>
               request.assignments[j].activity != request.assignments[i].activity
    requires request.assignments[i].activity in request.activities
    requires request.assignments[i].lane.resource in request.resources
    ensures var x := request.assignments[i]; Measured(request, x, done[x.activity])
  {
    var x := request.assignments[i];
    LastAssignment(request.assignments, i);
    assert ShippedAt(request, previous, done, transfers, x.activity);
    var moved := For(transfers, x.activity);
    ReadyIsNotNegative(request, done, Predecessors(request, x.activity), x.activity, moved);
    hide ReadyWith, Carried, Ready, Delayed, RunsFor, ResolveRuntime, ResolveOverhead;
    RuntimeIs(request.activities[x.activity], x.lane.resource, request.resources[x.lane.resource], request.profiles);
    OverheadIs(x, request.resources[x.lane.resource]);
  }

  /** All executions of an accepted plan have the figures of their assignments. */
  lemma AcceptedIsMeasured(
    request: Request, scope: set<Id>, previous: map<Id, Id>, done: Executions, transfers: seq<Transfer>,
    x: Assignment)
    requires Accepted(request.activities, request.dependencies, request.resources, scope, request.assignments)
    requires Shipped(request, previous, done, transfers) && done.Keys == request.activities.Keys
    requires x in request.assignments
    ensures x.activity in done && Measured(request, x, done[x.activity])
  {
    assert Suitable(request.activities, request.resources, scope, x);
    var i :| 0 <= i < |request.assignments| && request.assignments[i] == x;
    hide Shipped, Measured;
    SimulatedIsMeasured(request, previous, done, transfers, i);
  }

  // ---------- Faster hosts ----------

  /** The same hosts, some of them faster; a host without a speedup does not get one. */
  ghost predicate Upgraded(resources: map<Id, Resource>, faster: map<Id, Resource>) {
    && faster.Keys == resources.Keys
    && forall r <- resources ::
         && faster[r] == resources[r].(speedup := faster[r].speedup)
         && faster[r].speedup >= resources[r].speedup
         && (resources[r].speedup > 0.0 || faster[r].speedup == resources[r].speedup)
  }

  lemma QuotientDrops(base: real, s: real, t: real)
    requires base >= 0.0 && 0.0 < s <= t
    ensures base / t <= base / s
  {
    var x, y := base / t, base / s;
    assert x * t == y * s;
    if x > y {
      LargerProduct(x, y, s, t);
    }
  }

  lemma LargerProduct(x: real, y: real, s: real, t: real)
    requires x > y >= 0.0 && 0.0 < s <= t
    ensures x * t > y * s
  {
    assert x * t >= x * s;
    assert x * s > y * s;
  }

  lemma DurationDrops(request: Request, faster: map<Id, Resource>, a: Id)
    requires Upgraded(request.resources, faster)
    requires forall x <- request.activities ::
               request.activities[x].baseRuntime.Some? ==> request.activities[x].baseRuntime.value >= 0.0
    ensures Duration(request.(resources := faster), a) <= Duration(request, a)
  {
    var base := ActivityOf(request, a).baseRuntime;
    var r := AssignmentOf(request.assignments, a).lane.resource;
    if r in request.resources && base.Some? && request.resources[r].speedup > 0.0 {
      QuotientDrops(base.value, request.resources[r].speedup, faster[r].speedup);
    }
  }

  lemma SameDelay(request: Request, faster: map<Id, Resource>, p: Id, a: Id)
    requires faster.Keys == request.resources.Keys
    ensures Delay(request.(resources := faster), p, a) == Delay(request, p, a)
  {
  }

  /** The simulated starts also fit the faster hosts, which leave slack. */
  lemma StartsStillObey(request: Request, faster: map<Id, Resource>, previous: map<Id, Id>, starts: map<Id, real>)
    requires Upgraded(request.resources, faster)
    requires forall x <- request.activities ::
               request.activities[x].baseRuntime.Some? ==> request.activities[x].baseRuntime.value >= 0.0
    requires Obeys(request, previous, starts)
    ensures Obeys(request.(resources := faster), previous, starts)
  {
    var upgraded := request.(resources := faster);
    hide Delay, Duration, Upgraded;
    forall a <- starts, p <- Predecessors(upgraded, a)
      ensures p in starts && starts[a] >= starts[p] + Duration(upgraded, p) + Delay(upgraded, p, a)
    {
      assert p in Predecessors(request, a);
      DurationDrops(request, faster, p);
      assert faster.Keys == request.resources.Keys by {
        UpgradedKeys(request.resources, faster);
      }
      SameDelay(request, faster, p, a);
    }
    forall a <- starts | a in previous
      ensures previous[a] in starts && starts[a] >= starts[previous[a]] + Duration(upgraded, previous[a])
    {
      DurationDrops(request, faster, previous[a]);
    }
  }

  lemma UpgradedKeys(resources: map<Id, Resource>, faster: map<Id, Resource>)
    requires Upgraded(resources, faster)
    ensures faster.Keys == resources.Keys
  {
  }

  /** Faster hosts never delay anything: with the lanes as planned, no activity starts or finishes later. */
  lemma FasterHostsDelayNothing(
    request: Request, faster: map<Id, Resource>, previous: map<Id, Id>, done: Executions, done': Executions)
    requires Upgraded(request.resources, faster)
    requires forall x <- request.activities ::
               request.activities[x].baseRuntime.Some? ==> request.activities[x].baseRuntime.value >= 0.0
    requires WellPosed(request, previous) && !HasCycle(Waits(request, previous))
    requires Solves(request, previous, done) && Solves(request.(resources := faster), previous, done')
    ensures done'.Keys == done.Keys
    ensures forall a <- done :: done'[a].start <= done[a].start && done'[a].finish <= done[a].finish
  {
    var upgraded := request.(resources := faster);
    var starts := map a | a in done :: done[a].start;
    SimulationObeys(request, previous, done);
    StartsStillObey(request, faster, previous, starts);
    assert WellPosed(upgraded, previous) && Waits(upgraded, previous) == Waits(request, previous);
    SimulationIsEarliest(upgraded, previous, done', starts);
    assert done'.Keys == done.Keys;
    hide Upgraded, WellPosed, HasCycle, Obeys, Waits;
    forall a <- done ensures done'[a].start <= done[a].start && done'[a].finish <= done[a].finish {
      RanAfterItsWaits(request, previous, done, a);
      hide Solves, Timed;
      DurationDrops(request, faster, a);
    }
  }

  /** One activity that takes 10 seconds at speed 1 and is profiled at 1 second, on a host with the given speedup. */
  function ProfiledPlan(speedup: real): Request {
    Request(["a"], map["a" := NO_ACTIVITY.(baseRuntime := Some(10.0))], [], [], [OnLane("a", "x", 1)],
            map["x" := NO_RESOURCE.(speedup := speedup)], map[("", "x") := 1.0], [])
  }

  /** A host that gets its first speedup may become slower, because the base runtime then replaces the profile. */
  lemma FirstSpeedupMayDelay()
    ensures Runtime(ProfiledPlan(0.0), "a") == 1.0 && Runtime(ProfiledPlan(2.0), "a") == 5.0
  {
    var r, r' := ProfiledPlan(0.0), ProfiledPlan(2.0);
    AssignmentOfMember(r.assignments, r.assignments[0]);
    AssignmentOfMember(r'.assignments, r'.assignments[0]);
  }
}
