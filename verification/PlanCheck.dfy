/** The plan-level checks of the validator: lane orders, and one assignment per activity. */
module PlanCheck {
  import opened Graphs
  import opened Outcomes
  import opened Dependencies
  import opened Lanes
  import opened Model
  import opened Validator

  datatype OrderError =
    | DuplicateOrder(lane: Lane)
    | BeforePredecessor(activity: Id, predecessor: Id)

  predicate RespectsLane(assignments: seq<Assignment>, d: Dependency) {
    var a, p := AssignmentOf(assignments, d.activity), AssignmentOf(assignments, d.dependsOn);
    a.lane == p.lane ==> a.order > p.order
  }

  /** Lanes are duplicate-free and no activity precedes a direct predecessor on its own lane. */
  ghost predicate OrdersAccepted(assignments: seq<Assignment>, dependencies: seq<Dependency>) {
    && LanesOrdered(assignments)
    && forall d <- dependencies :: RespectsLane(assignments, d)
  }

  method CheckLane(items: seq<Assignment>) returns (ok: bool)
    ensures ok <==> DistinctOrders(items)
  {
    var sorted := SortByOrder(items);
    var i := 1;
    while i < |sorted|
      invariant 1 <= i && (|sorted| > 0 ==> i <= |sorted| && DistinctOrders(sorted[..i]))
    {
      if sorted[i - 1].order == sorted[i].order {
        SortedPairs(sorted, i - 1, i);
        return false;
      }
      NeighboursDecide(sorted, i);
      i := i + 1;
    }
    assert |sorted| > 0 ==> sorted[..i] == sorted;
    return true;
  }

  method CheckLanes(assignments: seq<Assignment>) returns (fault: Option<Lane>)
    ensures fault.None? <==> LanesOrdered(assignments)
    ensures fault.Some? ==> !DistinctOrders(Members(assignments, fault.value))
  {
    var byLane := GroupByLane(assignments);
    var todo := byLane.Keys;
    while todo != {}
      invariant todo <= byLane.Keys
      invariant forall lane <- byLane.Keys - todo :: DistinctOrders(Members(assignments, lane))
    {
      var lane :| lane in todo;
      todo := todo - {lane};
      var ok := CheckLane(byLane[lane]);
      assert Grouped(byLane, lane) == Members(assignments, lane);
      if !ok {
        if LanesOrdered(assignments) {
          OrderedLaneIsDistinct(assignments, lane);
        }
        return Some(lane);
      }
    }
    forall i, j | 0 <= i < j < |assignments| && assignments[i].lane == assignments[j].lane
      ensures assignments[i].order != assignments[j].order
    {
      assert assignments[i] in assignments;
      if assignments[i].order == assignments[j].order {
        ClashingLaneIsNotDistinct(assignments, i, j);
      }
    }
    return None;
  }

  method ValidateResourceOrders(assignments: seq<Assignment>, dependencies: seq<Dependency>)
    returns (fault: Option<OrderError>)
    ensures fault.None? <==> OrdersAccepted(assignments, dependencies)
    ensures fault.Some? && fault.value.DuplicateOrder? ==>
              !DistinctOrders(Members(assignments, fault.value.lane))
    ensures fault.Some? && fault.value.BeforePredecessor? ==>
              LanesOrdered(assignments) && Dependency(fault.value.activity, fault.value.predecessor) in dependencies
  {
    var index := IndexAssignments(assignments);
    var clash := CheckLanes(assignments);
    if clash.Some? {
      return Some(DuplicateOrder(clash.value));
    }
    for i := 0 to |dependencies|
      invariant forall k :: 0 <= k < i ==> RespectsLane(assignments, dependencies[k])
    {
      var d := dependencies[i];
      var a, p := Assigned(index, d.activity), Assigned(index, d.dependsOn);
      if a.lane == p.lane && a.order <= p.order {
        assert !RespectsLane(assignments, d) && d in dependencies;
        return Some(BeforePredecessor(d.activity, d.dependsOn));
      }
    }
    return None;
  }

  // ---------- Coverage ----------

  datatype PlanError =
    | WrongWorkflow
    | WrongTopology
    | ScopeRequired
    | WrongScope
    | WrongTopologyScope
    | UnknownActivityAssigned
    | AssignedTwice
    | UnknownResource
    | OutsideScope
    | NotSchedulable
    | SelectorMismatch
    | LacksCpu
    | LacksMemory
    | FinishesBeforeStart
    | Uncovered
    | BadDag(dag: DagError)
    | BadOrder(order: OrderError)

  /** The checks of one assignment, in the order they are made. */
  function AssignmentFault(
    activities: map<Id, Activity>, taken: set<Id>, resources: map<Id, Resource>, scope: set<Id>, a: Assignment)
    : Option<PlanError>
  {
    if a.activity !in activities then Some(UnknownActivityAssigned)
    else if a.activity in taken then Some(AssignedTwice)
    else if a.lane.resource !in resources then Some(UnknownResource)
    else
      var activity, resource := activities[a.activity], resources[a.lane.resource];
      if resource.environmentVersion !in scope then Some(OutsideScope)
      else if !resource.schedulable then Some(NotSchedulable)
      else if activity.selector != "" && activity.selector != a.lane.resource && !a.selectorOverride then
        Some(SelectorMismatch)
      else if !resource.schedulerTarget && resource.cpu < activity.cpu then Some(LacksCpu)
      else if !resource.schedulerTarget && resource.memory < activity.memory then Some(LacksMemory)
      else if a.predictedFinish < a.predictedStart then Some(FinishesBeforeStart)
      else None
  }

  /** The assignment is fine on its own, whatever else is assigned. */
  ghost predicate Suitable(
    activities: map<Id, Activity>, resources: map<Id, Resource>, scope: set<Id>, a: Assignment)
  {
    && a.activity in activities
    && a.lane.resource in resources
    && Hosts(resources[a.lane.resource], scope, activities[a.activity])
    && (activities[a.activity].selector in {"", a.lane.resource} || a.selectorOverride)
    && a.predictedStart <= a.predictedFinish
  }

  /** The resource is in scope, can be scheduled and is large enough, or leaves that to its scheduler. */
  ghost predicate Hosts(resource: Resource, scope: set<Id>, activity: Activity) {
    && resource.environmentVersion in scope
    && resource.schedulable
    && (resource.schedulerTarget || (activity.cpu <= resource.cpu && activity.memory <= resource.memory))
  }

  /** The place of a check of assignments in the order they are made. */
  function Place(check: PlanError): nat {
    match check
    case UnknownActivityAssigned => 0
    case AssignedTwice => 1
    case UnknownResource => 2
    case OutsideScope => 3
    case NotSchedulable => 4
    case SelectorMismatch => 5
    case LacksCpu => 6
    case LacksMemory => 7
    case FinishesBeforeStart => 8
    case _ => 9
  }

  /** What is wrong with an assignment that fails one of the checks. */
  ghost predicate Wrong(
    check: PlanError, activities: map<Id, Activity>, taken: set<Id>, resources: map<Id, Resource>, scope: set<Id>,
    a: Assignment)
  {
    match check
    case UnknownActivityAssigned => a.activity !in activities
    case AssignedTwice => a.activity in taken
    case UnknownResource => a.lane.resource !in resources
    case FinishesBeforeStart => a.predictedFinish < a.predictedStart
    case _ => a.activity in activities && a.lane.resource in resources
              && Unfit(check, activities[a.activity], resources[a.lane.resource], scope, a)
  }

  ghost predicate Unfit(check: PlanError, activity: Activity, resource: Resource, scope: set<Id>, a: Assignment) {
    match check
    case OutsideScope => resource.environmentVersion !in scope
    case NotSchedulable => !resource.schedulable
    case SelectorMismatch => activity.selector !in {"", a.lane.resource} && !a.selectorOverride
    case LacksCpu => !resource.schedulerTarget && activity.cpu > resource.cpu
    case LacksMemory => !resource.schedulerTarget && activity.memory > resource.memory
    case _ => false
  }

  /** The assignment fails this check and none before it. */
  ghost predicate FirstWrong(
    check: PlanError, activities: map<Id, Activity>, taken: set<Id>, resources: map<Id, Resource>, scope: set<Id>,
    a: Assignment)
  {
    && Wrong(check, activities, taken, resources, scope, a)
    && forall c: PlanError :: Place(c) < Place(check) ==> !Wrong(c, activities, taken, resources, scope, a)
  }

  /** The checks pass exactly suitable assignments of activities that are still free. */
  lemma PassesExactlyWhen(
    activities: map<Id, Activity>, taken: set<Id>, resources: map<Id, Resource>, scope: set<Id>, a: Assignment)
    ensures AssignmentFault(activities, taken, resources, scope, a).None?
            <==> Suitable(activities, resources, scope, a) && a.activity !in taken
  {
  }

  lemma FaultIsWrong(
    activities: map<Id, Activity>, taken: set<Id>, resources: map<Id, Resource>, scope: set<Id>, a: Assignment)
    ensures var fault := AssignmentFault(activities, taken, resources, scope, a);
            fault.Some? ==> FirstWrong(fault.value, activities, taken, resources, scope, a)
  {
  }

  lemma WrongIsFault(
    check: PlanError, activities: map<Id, Activity>, taken: set<Id>, resources: map<Id, Resource>, scope: set<Id>,
    a: Assignment)
    requires Wrong(check, activities, taken, resources, scope, a)
    ensures AssignmentFault(activities, taken, resources, scope, a).Some? && Place(check) < 9
  {
  }

  lemma SamePlaceSameCheck(c: PlanError, d: PlanError)
    requires Place(c) == Place(d) < 9
    ensures c == d
  {
  }

  /** A fault is reported exactly when its check fails and every check before it passes. */
  lemma FaultIsFirstWrong(
    check: PlanError, activities: map<Id, Activity>, taken: set<Id>, resources: map<Id, Resource>, scope: set<Id>,
    a: Assignment)
    ensures AssignmentFault(activities, taken, resources, scope, a) == Some(check)
            <==> FirstWrong(check, activities, taken, resources, scope, a)
  {
    hide Wrong, Place, AssignmentFault;
    FaultIsWrong(activities, taken, resources, scope, a);
    if FirstWrong(check, activities, taken, resources, scope, a) {
      WrongIsFault(check, activities, taken, resources, scope, a);
      var fault := AssignmentFault(activities, taken, resources, scope, a).value;
      WrongIsFault(fault, activities, taken, resources, scope, a);
      SamePlaceSameCheck(check, fault);
    }
  }

  /** Every activity has exactly one assignment and every assignment is suitable. */
  ghost predicate Covers(
    activities: map<Id, Activity>, resources: map<Id, Resource>, scope: set<Id>, assignments: seq<Assignment>)
  {
    && AssignedOnce(assignments)
    && (forall a <- assignments :: Suitable(activities, resources, scope, a))
    && (forall id <- activities :: exists a <- assignments :: a.activity == id)
  }

  function AssignedIds(assignments: seq<Assignment>): set<Id> {
    set a <- assignments :: a.activity
  }

  /** The first `i` assignments passed, and these are the activities they cover. */
  ghost predicate Passed(
    activities: map<Id, Activity>, resources: map<Id, Resource>, scope: set<Id>, assignments: seq<Assignment>,
    taken: set<Id>)
  {
    && taken == AssignedIds(assignments)
    && AssignedOnce(assignments)
    && forall a <- assignments :: Suitable(activities, resources, scope, a)
  }

  lemma PassOne(
    activities: map<Id, Activity>, resources: map<Id, Resource>, scope: set<Id>, assignments: seq<Assignment>,
    taken: set<Id>, i: nat)
    requires i < |assignments| && Passed(activities, resources, scope, assignments[..i], taken)
    ensures var fault := AssignmentFault(activities, taken, resources, scope, assignments[i]);
            && (fault.None? ==>
                  Passed(activities, resources, scope, assignments[..i + 1], taken + {assignments[i].activity}))
            && (fault.Some? ==> !Covers(activities, resources, scope, assignments))
  {
    var a := assignments[i];
    assert assignments[..i + 1] == assignments[..i] + [a] && a in assignments;
    AssignedOnceSnoc(assignments, i);
    if AssignedOnce(assignments) {
      AssignedOncePrefix(assignments, i + 1);
    }
  }

  lemma CoverageByCount(
    activities: map<Id, Activity>, resources: map<Id, Resource>, scope: set<Id>, assignments: seq<Assignment>,
    taken: set<Id>)
    requires Passed(activities, resources, scope, assignments, taken)
    ensures Covers(activities, resources, scope, assignments) <==> |taken| == |activities.Keys|
    ensures |taken| != |activities.Keys| ==> exists id <- activities :: id !in taken
  {
    assert taken <= activities.Keys;
    if |taken| == |activities.Keys| {
      SubsetOfSameSize(taken, activities.Keys);
    }
    if Covers(activities, resources, scope, assignments) {
      assert taken == activities.Keys;
    }
  }

  /** The first `i` assignments pass and the next one fails first at this check. */
  ghost predicate FirstAt(
    i: nat, activities: map<Id, Activity>, resources: map<Id, Resource>, scope: set<Id>, assignments: seq<Assignment>,
    check: PlanError)
  {
    && i < |assignments|
    && Passed(activities, resources, scope, assignments[..i], AssignedIds(assignments[..i]))
    && FirstWrong(check, activities, AssignedIds(assignments[..i]), resources, scope, assignments[i])
  }

  /** Why assignments are refused: the first one that fails a check, or an activity without any. */
  ghost predicate Explained(
    activities: map<Id, Activity>, resources: map<Id, Resource>, scope: set<Id>, assignments: seq<Assignment>,
    fault: PlanError)
  {
    if fault == Uncovered
    then Passed(activities, resources, scope, assignments, AssignedIds(assignments))
         && exists id <- activities :: id !in AssignedIds(assignments)
    else exists i :: FirstAt(i, activities, resources, scope, assignments, fault)
  }

  method CheckAssignments(
    activities: map<Id, Activity>, resources: map<Id, Resource>, scope: set<Id>, assignments: seq<Assignment>)
    returns (fault: Option<PlanError>)
    ensures fault.None? <==> Covers(activities, resources, scope, assignments)
    ensures fault.Some? ==> Explained(activities, resources, scope, assignments, fault.value)
  {
    var taken: set<Id> := {};
    for i := 0 to |assignments|
      invariant Passed(activities, resources, scope, assignments[..i], taken)
    {
      fault := AssignmentFault(activities, taken, resources, scope, assignments[i]);
      PassOne(activities, resources, scope, assignments, taken, i);
      if fault.Some? {
        FaultIsFirstWrong(fault.value, activities, taken, resources, scope, assignments[i]);
        assert FirstAt(i, activities, resources, scope, assignments, fault.value);
        return;
      }
      taken := taken + {assignments[i].activity};
    }
    assert assignments[..|assignments|] == assignments;
    CoverageByCount(activities, resources, scope, assignments, taken);
    fault := if |taken| != |activities.Keys| then Some(Uncovered) else None;
  }

  /** What the validator guarantees about the plan of a workflow. */
  ghost predicate Accepted(
    activities: map<Id, Activity>, dependencies: seq<Dependency>, resources: map<Id, Resource>, scope: set<Id>,
    assignments: seq<Assignment>)
  {
    && Covers(activities, resources, scope, assignments)
    && AllKnown(activities.Keys, dependencies)
    && !HasCycle(DependencyEdges(dependencies))
    && OrdersAccepted(assignments, dependencies)
  }

  /** The identifiers by which a plan refers to its workflow, topology and scope; `""` is none. */
  datatype Header = Header(
    planWorkflow: Id, workflow: Id,
    planTopology: Id, topology: Id, topologyScope: Id,
    planScope: Id, scope: Id
  )

  /** The plan was made for this workflow, scope and topology, and the topology for the scope. */
  predicate HeaderMatches(h: Header) {
    && h.planWorkflow == h.workflow
    && (h.planTopology == "" || h.planTopology == h.topology)
    && h.planScope != "" && h.planScope == h.scope
    && (h.topology == "" || h.topologyScope == h.scope)
  }

  /** What is wrong with a header, leaving out what an earlier check reports. */
  ghost predicate WrongHeader(h: Header, fault: PlanError) {
    match fault
    case WrongWorkflow => h.planWorkflow != h.workflow
    case WrongTopology => h.planWorkflow == h.workflow && h.planTopology !in {"", h.topology}
    case ScopeRequired => h.planWorkflow == h.workflow && h.planTopology in {"", h.topology} && h.planScope == ""
    case WrongScope =>
      h.planWorkflow == h.workflow && h.planTopology in {"", h.topology} && h.planScope !in {"", h.scope}
    case WrongTopologyScope =>
      && h.planWorkflow == h.workflow && h.planTopology in {"", h.topology} && h.planScope == h.scope != ""
      && h.topology != "" && h.topologyScope != h.scope
    case _ => false
  }

  function HeaderFault(h: Header): (fault: Option<PlanError>)
    ensures fault.None? <==> HeaderMatches(h)
    ensures forall e: PlanError :: fault == Some(e) <==> WrongHeader(h, e)
  {
    if h.planWorkflow != h.workflow then Some(WrongWorkflow)
    else if h.planTopology != "" && h.planTopology != h.topology then Some(WrongTopology)
    else if h.planScope == "" then Some(ScopeRequired)
    else if h.planScope != h.scope then Some(WrongScope)
    else if h.topology != "" && h.planScope != h.topologyScope then Some(WrongTopologyScope)
    else None
  }

  /** Why a plan is refused: each check is made only when those before it pass. */
  ghost predicate Refused(
    header: Header, activities: map<Id, Activity>, dependencies: seq<Dependency>, resources: map<Id, Resource>,
    scope: set<Id>, assignments: seq<Assignment>, fault: PlanError)
  {
    if !HeaderMatches(header) then WrongHeader(header, fault)
    else if !Covers(activities, resources, scope, assignments) then
      Explained(activities, resources, scope, assignments, fault)
    else if !AllKnown(activities.Keys, dependencies) || HasCycle(DependencyEdges(dependencies)) then fault.BadDag?
    else fault.BadOrder? && !OrdersAccepted(assignments, dependencies)
  }

  method Validate(
    header: Header, order: seq<Id>, activities: map<Id, Activity>, dependencies: seq<Dependency>,
    resources: map<Id, Resource>, scope: set<Id>, assignments: seq<Assignment>)
    returns (fault: Option<PlanError>)
    requires ToSet(order) == activities.Keys
    ensures fault.None? <==>
              HeaderMatches(header) && Accepted(activities, dependencies, resources, scope, assignments)
    ensures fault.Some? ==> Refused(header, activities, dependencies, resources, scope, assignments, fault.value)
  {
    fault := HeaderFault(header);
    if fault.Some? {
      return;
    }
    fault := CheckAssignments(activities, resources, scope, assignments);
    if fault.Some? {
      return;
    }
    var dag, _ := ValidateDag(order, dependencies);
    if dag.Some? {
      return Some(BadDag(dag.value));
    }
    var orders := ValidateResourceOrders(assignments, dependencies);
    if orders.Some? {
      return Some(BadOrder(orders.value));
    }
  }
}
