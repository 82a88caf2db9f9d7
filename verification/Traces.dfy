/** The trace of a simulated plan: one task per activity, its bills and its metrics. */
module Traces {
  import opened Graphs
  import opened Outcomes
  import opened Simulation
  import opened Shipments
  import opened PlanCheck
  import opened LaneOrder
  import opened Simulator
  import opened Schedules
  import opened Figures
  import Billing

  function PricesOf(request: Request): map<Id, real> {
    map r <- request.resources :: request.resources[r].pricePerSecond
  }

  /** The task of one execution, priced by itself as long as the bills are not made out. */
  function TaskOf(prices: map<Id, real>, e: Execution): Billing.Task {
    Billing.Task(e.resource, e.start, e.finish, e.runtime, e.start - e.dataReady, e.transferSeconds, e.overhead,
                 (e.runtime + e.overhead) * Billing.Price(prices, e.resource))
  }

  /** The tasks of the executions, in the order in which the workflow lists its activities. */
  function TasksOf(prices: map<Id, real>, order: seq<Id>, done: Executions): seq<Billing.Task>
    requires forall a <- order :: a in done
  {
    seq(|order|, i requires 0 <= i < |order| => assert order[i] in order; TaskOf(prices, done[order[i]]))
  }

  function TransferCosts(transfers: seq<Transfer>): seq<real> {
    seq(|transfers|, i requires 0 <= i < |transfers| => transfers[i].cost)
  }

  lemma {:induction false} AsListing(s: set<Id>) returns (listing: seq<Id>)
    ensures Distinct(listing) && ToSet(listing) == s
  {
    if s == {} {
      listing := [];
    } else {
      var x :| x in s;
      var rest := AsListing(s - {x});
      assert x !in ToSet(rest);
      DistinctSnoc(rest, x);
      listing := rest + [x];
      assert ToSet(listing) == ToSet(rest) + {x};
    }
  }

  /** The metrics of a simulated plan. */
  ghost predicate Meters(
    request: Request, done: Executions, transfers: seq<Transfer>, deadline: real, budget: real, m: Billing.Metrics)
    requires forall a <- request.order :: a in done
  {
    var tasks := TasksOf(PricesOf(request), request.order, done);
    m == Billing.Totals(tasks).(
           cost := Billing.Sum(Billing.Costs(Billing.Billed(tasks, PricesOf(request))))
                   + Billing.Sum(TransferCosts(transfers)),
           feasible := (deadline <= 0.0 || m.makespan <= deadline) && (budget <= 0.0 || m.cost <= budget))
  }

  lemma ResourcesListed(tasks: seq<Billing.Task>) returns (listing: seq<Id>)
    ensures Distinct(listing) && forall t <- tasks :: t.resource in listing
  {
    listing := AsListing(set t <- tasks :: t.resource);
    forall t <- tasks ensures t.resource in listing {
      assert t.resource in ToSet(listing);
    }
  }

  method BuildTrace(request: Request, done: Executions, transfers: seq<Transfer>, deadline: real, budget: real)
    returns (tasks: array<Billing.Task>, m: Billing.Metrics)
    requires forall a <- request.order :: a in done
    ensures fresh(tasks)
    ensures tasks[..] == Billing.Billed(TasksOf(PricesOf(request), request.order, done), PricesOf(request))
    ensures Meters(request, done, transfers, deadline, budget, m)
  {
    var prices := PricesOf(request);
    tasks := ListTasks(request, prices, done);
    ghost var listing := ResourcesListed(tasks[..]);
    Billing.TasksPayTheBills(tasks[..], prices, listing);
    hide PricesOf, TasksOf, TransferCosts, Billing.Totals, Billing.Sum, Billing.Costs, Billing.Billed;
    hide Billing.BillOfAll, Distinct;
    m := Billing.BuildMetrics(tasks, prices, TransferCosts(transfers), deadline, budget, listing);
  }

  method ListTasks(request: Request, prices: map<Id, real>, done: Executions) returns (tasks: array<Billing.Task>)
    requires forall a <- request.order :: a in done
    ensures fresh(tasks) && tasks[..] == TasksOf(prices, request.order, done)
  {
    tasks := new Billing.Task[|request.order|](i requires 0 <= i < |request.order| =>
      assert request.order[i] in request.order; TaskOf(prices, done[request.order[i]]));
  }

  /** The whole executor: validate, simulate, bill and measure. */
  method ExecutePlan(header: Header, request: Request, scope: set<Id>, deadline: real, budget: real)
    returns (r: Result<Billing.Metrics, ExecuteError>, tasks: array<Billing.Task>, ghost done: Executions,
             transfers: seq<Transfer>, ghost previous: map<Id, Id>)
    requires ToSet(request.order) == request.activities.Keys
    ensures r.Ok? <==>
              && HeaderMatches(header)
              && Accepted(request.activities, request.dependencies, request.resources, scope, request.assignments)
              && Distinct(request.order) && !HasCycle(Waits(request, previous)) && PathsExist(request)
    ensures r.Ok? ==> done.Keys == ToSet(request.order) && Shipped(request, previous, done, transfers)
    ensures r.Ok? ==> tasks[..] == Billing.Billed(TasksOf(PricesOf(request), request.order, done), PricesOf(request))
    ensures r.Ok? ==> Meters(request, done, transfers, deadline, budget, r.value)
    ensures r.Ok? ==> forall x <- request.assignments :: x.activity in done && Measured(request, x, done[x.activity])
    ensures r.Ok? && Sane(request) ==> Performs(request, previous, done)
    ensures (r.Err? && r.error.Invalid?) <==>
              !(HeaderMatches(header)
                && Accepted(request.activities, request.dependencies, request.resources, scope, request.assignments))
    ensures !(r.Err? && r.error.Invalid?) ==> LanePrevious(request.assignments, previous)
    ensures r == Err(Failed(Stalled)) ==> !Distinct(request.order) || HasCycle(Waits(request, previous))
    ensures r == Err(Failed(NoPath)) ==> !PathsExist(request)
  {
    var executed;
    executed, transfers, previous := Execute(header, request, scope);
    if executed.Err? {
      done := map[];
      tasks := new Billing.Task[0];
      return Err(executed.error), tasks, done, transfers, previous;
    }
    done := executed.value;
    assert forall a <- request.order :: a in ToSet(request.order);
    hide *;
    var m;
    forall x <- request.assignments ensures x.activity in done && Measured(request, x, done[x.activity]) {
      AcceptedIsMeasured(request, scope, previous, done, transfers, x);
    }
    tasks, m := BuildTrace(request, executed.value, transfers, deadline, budget);
    r := Ok(m);
  }

  // ---------- What the metrics mean ----------

  /** The transfer times of the consumers in `order`. */
  function ByConsumer(transfers: seq<Transfer>, order: seq<Id>): real {
    if order == [] then 0.0 else
      var n := |order| - 1;
      ByConsumer(transfers, order[..n]) + TotalSeconds(For(transfers, order[n]))
  }

  lemma TotalForSnoc(transfers: seq<Transfer>, a: Id)
    requires transfers != []
    ensures var n := |transfers| - 1;
            TotalSeconds(For(transfers, a))
            == TotalSeconds(For(transfers[..n], a)) + if transfers[n].consumer == a then transfers[n].seconds else 0.0
  {
    var n := |transfers| - 1;
    var earlier := For(transfers[..n], a);
    if transfers[n].consumer == a {
      assert (earlier + [transfers[n]])[..|earlier|] == earlier;
    } else {
      assert earlier + [] == earlier;
    }
  }

  lemma {:induction false} ByConsumerSnoc(transfers: seq<Transfer>, order: seq<Id>)
    requires transfers != [] && Distinct(order)
    ensures var n := |transfers| - 1;
            ByConsumer(transfers, order)
            == ByConsumer(transfers[..n], order) + if transfers[n].consumer in order then transfers[n].seconds else 0.0
  {
    if order != [] {
      var k := |order| - 1;
      assert order == order[..k] + [order[k]];
      DistinctSnoc(order[..k], order[k]);
      ByConsumerSnoc(transfers, order[..k]);
      TotalForSnoc(transfers, order[k]);
      hide For, TotalSeconds, Distinct;
    }
  }

  lemma {:induction false} NothingByConsumer(order: seq<Id>)
    ensures ByConsumer([], order) == 0.0
  {
    if order != [] {
      NothingByConsumer(order[..|order| - 1]);
    }
  }

  lemma {:induction false} TransfersByConsumer(transfers: seq<Transfer>, order: seq<Id>)
    requires Distinct(order) && forall t <- transfers :: t.consumer in order
    ensures ByConsumer(transfers, order) == TotalSeconds(transfers)
  {
    if transfers == [] {
      NothingByConsumer(order);
    } else {
      var n := |transfers| - 1;
      assert transfers[n] in transfers;
      ByConsumerSnoc(transfers, order);
      TransfersByConsumer(transfers[..n], order);
    }
  }

  lemma {:induction false} TaskTimesByConsumer(
    request: Request, previous: map<Id, Id>, prices: map<Id, real>, order: seq<Id>, done: Executions,
    transfers: seq<Transfer>)
    requires Shipped(request, previous, done, transfers) && forall a <- order :: a in done
    ensures Billing.Sum(Billing.TransferTimes(TasksOf(prices, order, done))) == ByConsumer(transfers, order)
  {
    if order != [] {
      var n := |order| - 1;
      assert order[n] in order;
      RecordedTime(request, previous, done, transfers, order[n]);
      TransferTimesSnoc(prices, order, done);
      TaskTimesByConsumer(request, previous, prices, order[..n], done, transfers);
      hide Shipped, For, TotalSeconds, TasksOf, Billing.Sum, Billing.TransferTimes;
    }
  }

  lemma RecordedTime(request: Request, previous: map<Id, Id>, done: Executions, transfers: seq<Transfer>, a: Id)
    requires Shipped(request, previous, done, transfers) && a in done
    ensures done[a].transferSeconds == TotalSeconds(For(transfers, a))
  {
    assert ShippedAt(request, previous, done, transfers, a);
    hide Carried, Ready, For, TotalSeconds, ReadyWith;
  }

  lemma TransferTimesSnoc(prices: map<Id, real>, order: seq<Id>, done: Executions)
    requires order != [] && forall a <- order :: a in done
    ensures var n := |order| - 1;
            && order[n] in done
            && Billing.Sum(Billing.TransferTimes(TasksOf(prices, order, done)))
            == Billing.Sum(Billing.TransferTimes(TasksOf(prices, order[..n], done))) + done[order[n]].transferSeconds
  {
    var n := |order| - 1;
    assert order[n] in order;
    assert Billing.TransferTimes(TasksOf(prices, order, done))[..n]
        == Billing.TransferTimes(TasksOf(prices, order[..n], done));
  }

  /** The transfer time of a trace is the time of its recorded transfers. */
  lemma TransferTimeIsRecorded(
    request: Request, previous: map<Id, Id>, done: Executions, transfers: seq<Transfer>, deadline: real, budget: real,
    m: Billing.Metrics)
    requires Distinct(request.order) && done.Keys == ToSet(request.order)
    requires Shipped(request, previous, done, transfers)
    requires (forall a <- request.order :: a in done) && Meters(request, done, transfers, deadline, budget, m)
    ensures m.transfer == TotalSeconds(transfers)
  {
    forall t <- transfers ensures t.consumer in request.order {
      assert t.consumer in done.Keys;
    }
    TaskTimesByConsumer(request, previous, PricesOf(request), request.order, done, transfers);
    TransfersByConsumer(transfers, request.order);
  }

  lemma {:induction false} LatestBelow(prices: map<Id, real>, order: seq<Id>, done: Executions, bound: real)
    requires (forall a <- order :: a in done && done[a].finish <= bound) && bound >= 0.0
    ensures Billing.Latest(TasksOf(prices, order, done)) <= bound
  {
    if order != [] {
      var n := |order| - 1;
      assert order[n] in order;
      assert TasksOf(prices, order, done)[..n] == TasksOf(prices, order[..n], done);
      LatestBelow(prices, order[..n], done, bound);
    }
  }

  lemma {:induction false} LatestAbove(prices: map<Id, real>, order: seq<Id>, done: Executions)
    requires forall a <- order :: a in done
    ensures forall a <- order :: done[a].finish <= Billing.Latest(TasksOf(prices, order, done))
  {
    if order != [] {
      var n := |order| - 1;
      assert TasksOf(prices, order, done)[..n] == TasksOf(prices, order[..n], done);
      LatestAbove(prices, order[..n], done);
      assert order == order[..n] + [order[n]];
    }
  }

  /** No schedule that obeys the waits has a shorter makespan, and the simulated one keeps to it. */
  lemma MakespanIsMinimal(
    request: Request, previous: map<Id, Id>, done: Executions, transfers: seq<Transfer>, deadline: real, budget: real,
    m: Billing.Metrics, starts: map<Id, real>, bound: real)
    requires Performs(request, previous, done) && forall a <- request.order :: a in done
    requires Meters(request, done, transfers, deadline, budget, m)
    requires Obeys(request, previous, starts) && bound >= 0.0
    requires forall a <- request.order :: a in starts && starts[a] + Duration(request, a) <= bound
    ensures m.makespan <= bound
    ensures forall a <- request.order :: done[a].finish <= m.makespan
  {
    SimulationIsEarliest(request, previous, done, starts);
    hide Performs, Obeys;
    LatestBelow(PricesOf(request), request.order, done, bound);
    LatestAbove(PricesOf(request), request.order, done);
  }
}
