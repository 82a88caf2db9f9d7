/** The figures of a trace in the fields of the executions: sums of times and shares of active-window bills. */
module TraceFigures {
  import opened Graphs
  import opened Reals
  import opened Simulation
  import opened Traces
  import Billing

  // ---------- Sums ----------

  /** How long each execution ran. */
  function RunTimes(order: seq<Id>, done: Executions): seq<real>
    requires forall a <- order :: a in done
  {
    seq(|order|, i requires 0 <= i < |order| => assert order[i] in order; done[order[i]].runtime)
  }

  /** How long each execution was set up. */
  function SetUpTimes(order: seq<Id>, done: Executions): seq<real>
    requires forall a <- order :: a in done
  {
    seq(|order|, i requires 0 <= i < |order| => assert order[i] in order; done[order[i]].overhead)
  }

  /** How long each execution waited for its lane once its data was there. */
  function WaitTimes(order: seq<Id>, done: Executions): seq<real>
    requires forall a <- order :: a in done
  {
    seq(|order|, i requires 0 <= i < |order| =>
      assert order[i] in order; done[order[i]].start - done[order[i]].dataReady)
  }

  /** Compute, queue and overhead time of a trace are the sums of what its executions ran, waited and were set up. */
  lemma MetricsAreSums(
    request: Request, done: Executions, transfers: seq<Transfer>, deadline: real, budget: real, m: Billing.Metrics)
    requires (forall a <- request.order :: a in done) && Meters(request, done, transfers, deadline, budget, m)
    ensures m.compute == Billing.Sum(RunTimes(request.order, done))
    ensures m.overhead == Billing.Sum(SetUpTimes(request.order, done))
    ensures m.queue == Billing.Sum(WaitTimes(request.order, done))
  {
    var order, tasks := request.order, TasksOf(PricesOf(request), request.order, done);
    assert Billing.Runtimes(tasks) == RunTimes(order, done);
    assert Billing.Overheads(tasks) == SetUpTimes(order, done);
    assert Billing.Queues(tasks) == WaitTimes(order, done);
  }

  // ---------- Shares ----------

  /** The activities that ran on resource `r`. */
  function On(order: seq<Id>, done: Executions, r: Id): (ids: seq<Id>)
    requires forall a <- order :: a in done
    ensures forall a :: a in ids <==> a in order && done[a].resource == r
  {
    if order == [] then [] else
      var n := |order| - 1;
      assert order == order[..n] + [order[n]];
      On(order[..n], done, r) + if done[order[n]].resource == r then [order[n]] else []
  }

  ghost predicate Begins(ids: seq<Id>, done: Executions, t: real)
    requires forall a <- ids :: a in done
  {
    (exists a <- ids :: done[a].start == t) && forall a <- ids :: t <= done[a].start
  }

  ghost predicate Ends(ids: seq<Id>, done: Executions, t: real)
    requires forall a <- ids :: a in done
  {
    (exists a <- ids :: done[a].finish == t) && forall a <- ids :: done[a].finish <= t
  }

  /**
   `cost` is the part of activity `a` in what its resource costs at `price` from the first start to the
   last finish: by runtime, or the same for all when nothing ran for any time.
   */
  ghost predicate Pays(order: seq<Id>, done: Executions, price: real, a: Id, cost: real)
    requires (forall x <- order :: x in done) && a in order
  {
    var ids := On(order, done, done[a].resource);
    && (price <= 0.0 ==> cost == 0.0)
    && (price > 0.0 ==> forall first, last | Begins(ids, done, first) && Ends(ids, done, last) ::
          Part(cost, Rent(first, last, price), done[a].runtime, Billing.Sum(RunTimes(ids, done)), |ids|))
  }

  /** `part` is to `whole` as `w` is to `sum`, or one of `count` equal parts. */
  ghost predicate Part(part: real, whole: real, w: real, sum: real, count: nat) {
    if sum > 0.0 then part * sum == whole * w else part * count as real == whole
  }

  function Length(first: real, last: real): real {
    if last >= first then last - first else 0.0
  }

  /** What a resource costs from its first start to its last finish. */
  function Rent(first: real, last: real, price: real): real {
    Length(first, last) * price
  }

  lemma TasksAppend(prices: map<Id, real>, ids: seq<Id>, done: Executions, x: Id)
    requires (forall a <- ids :: a in done) && x in done
    ensures TasksOf(prices, ids + [x], done) == TasksOf(prices, ids, done) + [TaskOf(prices, done[x])]
  {
  }

  lemma TasksSnoc(prices: map<Id, real>, order: seq<Id>, done: Executions, r: Id)
    requires order != [] && forall a <- order :: a in done
    ensures var n := |order| - 1;
            && order[n] in done
            && TasksOf(prices, On(order, done, r), done)
            == TasksOf(prices, On(order[..n], done, r), done)
               + if done[order[n]].resource == r then [TaskOf(prices, done[order[n]])] else []
  {
    var n := |order| - 1;
    var x := order[n];
    assert x in order;
    var before := On(order[..n], done, r);
    assert On(order, done, r) == before + if done[x].resource == r then [x] else [];
    TasksAppend(prices, before, done, x);
    hide *;
    if done[x].resource != r {
      assert before + [] == before;
    }
  }

  lemma {:induction false} TasksOnResource(prices: map<Id, real>, order: seq<Id>, done: Executions, r: Id)
    requires forall a <- order :: a in done
    ensures Billing.TasksOf(TasksOf(prices, order, done), r) == TasksOf(prices, On(order, done, r), done)
  {
    if order != [] {
      var n, tasks := |order| - 1, TasksOf(prices, order, done);
      assert order[n] in order && tasks[..n] == TasksOf(prices, order[..n], done) && tasks[..n + 1] == tasks;
      Billing.OwnSnoc(tasks, n, r);
      TasksOnResource(prices, order[..n], done, r);
      TasksSnoc(prices, order, done, r);
      hide TasksOf, Billing.TasksOf, On;
    }
  }

  lemma {:induction false} StartIsFirst(prices: map<Id, real>, ids: seq<Id>, done: Executions)
    requires ids != [] && forall a <- ids :: a in done
    ensures Begins(ids, done, Billing.Start(TasksOf(prices, ids, done)))
  {
    var n, tasks := |ids| - 1, TasksOf(prices, ids, done);
    assert ids[n] in ids && tasks[n].start == done[ids[n]].start;
    if n > 0 {
      StartIsFirst(prices, ids[..n], done);
      assert tasks[..n] == TasksOf(prices, ids[..n], done);
      assert ids == ids[..n] + [ids[n]];
    }
  }

  lemma {:induction false} FinishIsLast(prices: map<Id, real>, ids: seq<Id>, done: Executions)
    requires ids != [] && forall a <- ids :: a in done
    ensures Ends(ids, done, Billing.Finish(TasksOf(prices, ids, done)))
  {
    var n, tasks := |ids| - 1, TasksOf(prices, ids, done);
    assert ids[n] in ids && tasks[n].finish == done[ids[n]].finish;
    if n > 0 {
      FinishIsLast(prices, ids[..n], done);
      assert tasks[..n] == TasksOf(prices, ids[..n], done);
      assert ids == ids[..n] + [ids[n]];
    }
  }

  lemma WindowIs(prices: map<Id, real>, ids: seq<Id>, done: Executions, first: real, last: real)
    requires ids != [] && forall a <- ids :: a in done
    requires Begins(ids, done, first) && Ends(ids, done, last)
    ensures Billing.Window(TasksOf(prices, ids, done)) == Length(first, last)
  {
    StartIsFirst(prices, ids, done);
    FinishIsLast(prices, ids, done);
    hide Billing.Start, Billing.Finish, TasksOf;
    OneBeginning(ids, done, first, Billing.Start(TasksOf(prices, ids, done)));
    OneEnd(ids, done, last, Billing.Finish(TasksOf(prices, ids, done)));
    hide Begins, Ends;
    assert |TasksOf(prices, ids, done)| == |ids| by {
      LengthOfTasks(prices, ids, done);
    }
  }

  lemma LengthOfTasks(prices: map<Id, real>, ids: seq<Id>, done: Executions)
    requires forall a <- ids :: a in done
    ensures |TasksOf(prices, ids, done)| == |ids|
  {
  }

  lemma OneBeginning(ids: seq<Id>, done: Executions, t: real, t': real)
    requires (forall a <- ids :: a in done) && Begins(ids, done, t) && Begins(ids, done, t')
    ensures t == t'
  {
  }

  lemma OneEnd(ids: seq<Id>, done: Executions, t: real, t': real)
    requires (forall a <- ids :: a in done) && Ends(ids, done, t) && Ends(ids, done, t')
    ensures t == t'
  {
  }

  lemma ShareIs(total: real, weightSum: real, count: nat, w: real)
    requires count > 0
    ensures Part(Billing.Share(total, weightSum, count, w), total, w, weightSum, count)
  {
    if weightSum > 0.0 {
      assert (w / weightSum) * weightSum == w;
      Regroup(total, w / weightSum, weightSum);
    } else {
      assert (1.0 / count as real) * count as real == 1.0;
      Regroup(total, 1.0 / count as real, count as real);
    }
  }

  lemma Regroup(a: real, b: real, c: real)
    ensures (a * b) * c == a * (b * c)
  {
  }

  lemma BillIs(prices: map<Id, real>, order: seq<Id>, done: Executions, r: Id, first: real, last: real)
    requires forall x <- order :: x in done
    requires On(order, done, r) != [] && Billing.Price(prices, r) > 0.0
    requires Begins(On(order, done, r), done, first) && Ends(On(order, done, r), done, last)
    ensures Billing.Bill(TasksOf(prices, order, done), prices, r) == Rent(first, last, Billing.Price(prices, r))
  {
    hide *;
    TasksOnResource(prices, order, done, r);
    WindowIs(prices, On(order, done, r), done, first, last);
    BillIsRent(TasksOf(prices, order, done), prices, r, first, last);
  }

  lemma BillIsRent(tasks: seq<Billing.Task>, prices: map<Id, real>, r: Id, first: real, last: real)
    requires Billing.Price(prices, r) > 0.0 && Billing.Window(Billing.TasksOf(tasks, r)) == Length(first, last)
    ensures Billing.Bill(tasks, prices, r) == Rent(first, last, Billing.Price(prices, r))
  {
    hide Billing.Window, Length, Billing.TasksOf;
  }

  /** The cost of an execution, as the share that billing gives it. */
  lemma CostIsShare(prices: map<Id, real>, order: seq<Id>, done: Executions, a: Id)
    requires (forall x <- order :: x in done) && a in order
    ensures var r := done[a].resource;
            var ids := On(order, done, r);
            && |ids| > 0
            && Billing.TaskCost(TasksOf(prices, order, done), prices, TaskOf(prices, done[a]))
            == Billing.Share(Billing.Bill(TasksOf(prices, order, done), prices, r),
                             Billing.Sum(RunTimes(ids, done)), |ids|, done[a].runtime)
  {
    var r := done[a].resource;
    var ids := On(order, done, r);
    assert a in ids;
    TasksOnResource(prices, order, done, r);
    assert Billing.Runtimes(TasksOf(prices, ids, done)) == RunTimes(ids, done);
    hide Billing.Share, Billing.Bill, Billing.TasksOf;
  }

  lemma PaysItsShare(order: seq<Id>, done: Executions, price: real, a: Id, runtimes: real, bill: real)
    requires (forall x <- order :: x in done) && a in order
    requires runtimes == Billing.Sum(RunTimes(On(order, done, done[a].resource), done))
    requires price <= 0.0 ==> bill == 0.0
    requires var ids := On(order, done, done[a].resource);
             price > 0.0 ==> forall first, last | Begins(ids, done, first) && Ends(ids, done, last) ::
                               bill == Rent(first, last, price)
    ensures var ids := On(order, done, done[a].resource);
            |ids| > 0 && Pays(order, done, price, a, Billing.Share(bill, runtimes, |ids|, done[a].runtime))
  {
    var ids := On(order, done, done[a].resource);
    assert a in ids;
    hide Billing.Share, Billing.Sum, Part, Rent, Begins, Ends, On, RunTimes;
    ShareIs(bill, runtimes, |ids|, done[a].runtime);
    FreeShare(runtimes, |ids|, done[a].runtime);
  }

  lemma CostIsPaid(prices: map<Id, real>, order: seq<Id>, done: Executions, a: Id)
    requires (forall x <- order :: x in done) && a in order
    ensures Pays(order, done, Billing.Price(prices, done[a].resource), a,
                 Billing.TaskCost(TasksOf(prices, order, done), prices, TaskOf(prices, done[a])))
  {
    hide *;
    var r := done[a].resource;
    var ids := On(order, done, r);
    var runtimes := Billing.Sum(RunTimes(ids, done));
    var bill, price := Billing.Bill(TasksOf(prices, order, done), prices, r), Billing.Price(prices, r);
    CostIsShare(prices, order, done, a);
    if price > 0.0 {
      forall first, last | Begins(ids, done, first) && Ends(ids, done, last) ensures bill == Rent(first, last, price) {
        BillIs(prices, order, done, r, first, last);
      }
    } else {
      NothingToPay(TasksOf(prices, order, done), prices, r);
    }
    PaysItsShare(order, done, price, a, runtimes, bill);
  }

  lemma NothingToPay(tasks: seq<Billing.Task>, prices: map<Id, real>, r: Id)
    requires Billing.Price(prices, r) <= 0.0
    ensures Billing.Bill(tasks, prices, r) == 0.0
  {
  }

  lemma FreeShare(weightSum: real, count: nat, w: real)
    requires count > 0
    ensures Billing.Share(0.0, weightSum, count, w) == 0.0
  {
  }

  /** A resource costs what it says; one that the request does not know costs nothing. */
  ghost predicate PriceIs(request: Request, r: Id, price: real) {
    if r in request.resources then price == request.resources[r].pricePerSecond else price == 0.0
  }

  /** The task of each activity shows its execution, and costs its part of what its resource costs. */
  lemma TasksAreExecutions(request: Request, done: Executions, tasks: seq<Billing.Task>, i: nat)
    requires (forall a <- request.order :: a in done) && i < |request.order|
    requires tasks == Billing.Billed(TasksOf(PricesOf(request), request.order, done), PricesOf(request))
    ensures |tasks| == |request.order|
    ensures var t, e := tasks[i], done[request.order[i]];
            && t.resource == e.resource && t.start == e.start && t.finish == e.finish
            && t.runtime == e.runtime && t.queue == e.start - e.dataReady
            && t.transfer == e.transferSeconds && t.overhead == e.overhead
            && forall price | PriceIs(request, e.resource, price) ::
                 Pays(request.order, done, price, request.order[i], t.cost)
  {
    CostIsPaid(PricesOf(request), request.order, done, request.order[i]);
    hide Pays, Billing.TaskCost;
  }
}
