/**
 Active-window billing.  A resource is charged once for the window in which it was
 active; the bill is then split among its tasks, by runtime in the Go executor and by
 duration in the SimGrid runner.
 */
module Billing {
  import opened Graphs
  import opened Reals

  datatype Task = Task(
    resource: Id, start: real, finish: real, runtime: real, queue: real, transfer: real, overhead: real, cost: real)

  function Sum(s: seq<real>): real {
    if s == [] then 0.0 else Sum(s[..|s| - 1]) + s[|s| - 1]
  }

  // ---------- Splitting one bill ----------

  /** The part of `total` for weight `w`: proportional, or equal parts when no weight is positive. */
  function Share(total: real, weightSum: real, count: nat, w: real): real
    requires count > 0
  {
    total * (if weightSum > 0.0 then w / weightSum else 1.0 / count as real)
  }

  function Shares(total: real, weightSum: real, count: nat, weights: seq<real>): seq<real>
    requires count > 0
  {
    seq(|weights|, i requires 0 <= i < |weights| => Share(total, weightSum, count, weights[i]))
  }

  lemma Distribute(total: real, a: real, b: real, d: real)
    requires d != 0.0
    ensures total * (a / d) + total * (b / d) == total * ((a + b) / d)
  {
  }

  lemma SharesSnoc(total: real, weightSum: real, count: nat, weights: seq<real>)
    requires count > 0 && weights != []
    ensures var n := |weights| - 1;
            Sum(Shares(total, weightSum, count, weights))
            == Sum(Shares(total, weightSum, count, weights[..n])) + Share(total, weightSum, count, weights[n])
  {
    hide Share;
    var n := |weights| - 1;
    assert Shares(total, weightSum, count, weights)[..n] == Shares(total, weightSum, count, weights[..n]);
  }

  lemma {:induction false} SharesByWeight(total: real, weightSum: real, count: nat, weights: seq<real>)
    requires count > 0 && weightSum > 0.0
    ensures Sum(Shares(total, weightSum, count, weights)) == total * (Sum(weights) / weightSum)
  {
    if weights == [] {
      NothingOf(total, weightSum);
    } else {
      var n := |weights| - 1;
      SharesSnoc(total, weightSum, count, weights);
      SharesByWeight(total, weightSum, count, weights[..n]);
      Distribute(total, Sum(weights[..n]), weights[n], weightSum);
    }
  }

  lemma {:induction false} SharesEvenly(total: real, weightSum: real, count: nat, weights: seq<real>)
    requires count > 0 && weightSum <= 0.0
    ensures Sum(Shares(total, weightSum, count, weights)) == total * (|weights| as real / count as real)
  {
    if weights == [] {
      NothingOf(total, count as real);
    } else {
      var n := |weights| - 1;
      SharesSnoc(total, weightSum, count, weights);
      SharesEvenly(total, weightSum, count, weights[..n]);
      Distribute(total, n as real, 1.0, count as real);
    }
  }

  lemma NothingOf(total: real, d: real)
    requires d != 0.0
    ensures total * (0.0 / d) == 0.0
  {
  }

  /** However a bill is split, the parts add up to it. */
  lemma SharesAddUp(total: real, weights: seq<real>)
    requires weights != []
    ensures Sum(Shares(total, Sum(weights), |weights|, weights)) == total
  {
    if Sum(weights) > 0.0 {
      SharesByWeight(total, Sum(weights), |weights|, weights);
      Whole(total, Sum(weights));
    } else {
      SharesEvenly(total, Sum(weights), |weights|, weights);
      Whole(total, |weights| as real);
    }
  }

  lemma Whole(total: real, d: real)
    requires d != 0.0
    ensures total * (d / d) == total
  {
  }

  // ---------- The bill of a resource ----------

  predicate Within(indexes: seq<nat>, n: nat) {
    forall k :: 0 <= k < |indexes| ==> indexes[k] < n
  }

  /** Positions of the tasks of resource `r`. */
  function IndexesOf(tasks: seq<Task>, r: Id): (indexes: seq<nat>)
    ensures Within(indexes, |tasks|)
    ensures forall k :: 0 <= k < |indexes| ==> tasks[indexes[k]].resource == r
  {
    if tasks == [] then [] else
      var n := |tasks| - 1;
      IndexesOf(tasks[..n], r) + (if tasks[n].resource == r then [n] else [])
  }

  function TasksAt(tasks: seq<Task>, indexes: seq<nat>): seq<Task>
    requires Within(indexes, |tasks|)
  {
    seq(|indexes|, k requires 0 <= k < |indexes| && Within(indexes, |tasks|) => tasks[indexes[k]])
  }

  function TasksOf(tasks: seq<Task>, r: Id): seq<Task> {
    TasksAt(tasks, IndexesOf(tasks, r))
  }

  function Start(s: seq<Task>): real
    requires s != []
  {
    if |s| == 1 then s[0].start else Min(Start(s[..|s| - 1]), s[|s| - 1].start)
  }

  function Finish(s: seq<Task>): real
    requires s != []
  {
    if |s| == 1 then s[0].finish else Max(Finish(s[..|s| - 1]), s[|s| - 1].finish)
  }

  /** Length of the active window of a group of tasks. */
  function Window(s: seq<Task>): real {
    if s == [] then 0.0 else Max(0.0, Finish(s) - Start(s))
  }

  function Runtimes(s: seq<Task>): seq<real> {
    seq(|s|, i requires 0 <= i < |s| => s[i].runtime)
  }

  function Durations(s: seq<Task>): seq<real> {
    seq(|s|, i requires 0 <= i < |s| => s[i].finish - s[i].start)
  }

  function Costs(s: seq<Task>): seq<real> {
    seq(|s|, i requires 0 <= i < |s| => s[i].cost)
  }

  function Price(prices: map<Id, real>, r: Id): real {
    if r in prices then prices[r] else 0.0
  }

  /** What the Go executor charges resource `r`: nothing unless its price is positive. */
  function Bill(tasks: seq<Task>, prices: map<Id, real>, r: Id): real {
    if Price(prices, r) <= 0.0 then 0.0 else Window(TasksOf(tasks, r)) * Price(prices, r)
  }

  /** The cost the Go executor leaves on one task. */
  function TaskCost(tasks: seq<Task>, prices: map<Id, real>, t: Task): real {
    var own := TasksOf(tasks, t.resource);
    if own == [] then 0.0
    else Share(Bill(tasks, prices, t.resource), Sum(Runtimes(own)), |own|, t.runtime)
  }

  function Billed(tasks: seq<Task>, prices: map<Id, real>): seq<Task> {
    seq(|tasks|, i requires 0 <= i < |tasks| => tasks[i].(cost := TaskCost(tasks, prices, tasks[i])))
  }

  // ---------- Laws ----------

  lemma {:induction false} SameResourcesSameIndexes(tasks: seq<Task>, other: seq<Task>, r: Id)
    requires |tasks| == |other| && forall i :: 0 <= i < |tasks| ==> tasks[i].resource == other[i].resource
    ensures IndexesOf(tasks, r) == IndexesOf(other, r)
  {
    if tasks != [] {
      SameResourcesSameIndexes(tasks[..|tasks| - 1], other[..|tasks| - 1], r);
    }
  }

  /** The tasks of a resource together pay exactly its bill. */
  lemma ResourcePaysItsBill(tasks: seq<Task>, prices: map<Id, real>, r: Id)
    ensures Sum(Costs(TasksOf(Billed(tasks, prices), r))) == Bill(tasks, prices, r)
  {
    var billed, own := Billed(tasks, prices), TasksOf(tasks, r);
    SameResourcesSameIndexes(tasks, billed, r);
    if own != [] {
      var total := Bill(tasks, prices, r);
      var weights := Runtimes(own);
      assert Costs(TasksOf(billed, r)) == Shares(total, Sum(weights), |weights|, weights);
      SharesAddUp(total, weights);
    }
  }

  function CostOf(tasks: seq<Task>, r: Id): real {
    Sum(Costs(TasksOf(tasks, r)))
  }

  function CostOfAll(tasks: seq<Task>, order: seq<Id>): real {
    if order == [] then 0.0
    else CostOfAll(tasks, order[..|order| - 1]) + CostOf(tasks, order[|order| - 1])
  }

  lemma CostOfSnoc(tasks: seq<Task>, r: Id)
    requires tasks != []
    ensures var n := |tasks| - 1;
            CostOf(tasks, r) == CostOf(tasks[..n], r) + if tasks[n].resource == r then tasks[n].cost else 0.0
  {
    var n := |tasks| - 1;
    var before, after := Costs(TasksOf(tasks[..n], r)), Costs(TasksOf(tasks, r));
    if tasks[n].resource == r {
      assert after[..|before|] == before;
    } else {
      assert after == before;
    }
  }

  lemma {:induction false} CostOfAllSnoc(tasks: seq<Task>, order: seq<Id>)
    requires tasks != [] && Distinct(order)
    ensures var n := |tasks| - 1;
            CostOfAll(tasks, order) ==
            CostOfAll(tasks[..n], order) + if tasks[n].resource in order then tasks[n].cost else 0.0
  {
    if order != [] {
      var m := |order| - 1;
      assert order == order[..m] + [order[m]];
      DistinctSnoc(order[..m], order[m]);
      CostOfAllSnoc(tasks, order[..m]);
      CostOfSnoc(tasks, order[m]);
    }
  }

  /** Adding up task costs by resource, in any order, is adding them all up. */
  lemma {:induction false} CostsByResource(tasks: seq<Task>, order: seq<Id>)
    requires Distinct(order) && forall t <- tasks :: t.resource in order
    ensures Sum(Costs(tasks)) == CostOfAll(tasks, order)
  {
    if tasks == [] {
      NoCosts(order);
    } else {
      var n := |tasks| - 1;
      CostsByResource(tasks[..n], order);
      CostOfAllSnoc(tasks, order);
      assert Costs(tasks)[..n] == Costs(tasks[..n]);
    }
  }

  lemma NoCosts(order: seq<Id>)
    ensures CostOfAll([], order) == 0.0
  {
  }

  function BillOfAll(tasks: seq<Task>, prices: map<Id, real>, order: seq<Id>): real {
    if order == [] then 0.0
    else BillOfAll(tasks, prices, order[..|order| - 1]) + Bill(tasks, prices, order[|order| - 1])
  }

  lemma {:induction false} BillsArePaid(tasks: seq<Task>, prices: map<Id, real>, order: seq<Id>)
    ensures CostOfAll(Billed(tasks, prices), order) == BillOfAll(tasks, prices, order)
  {
    if order != [] {
      BillsArePaid(tasks, prices, order[..|order| - 1]);
      ResourcePaysItsBill(tasks, prices, order[|order| - 1]);
    }
  }

  /** Conservation: however the bills are split, the tasks together pay the bills of the resources in use. */
  lemma TasksPayTheBills(tasks: seq<Task>, prices: map<Id, real>, order: seq<Id>)
    requires Distinct(order) && forall t <- tasks :: t.resource in order
    ensures Sum(Costs(Billed(tasks, prices))) == BillOfAll(tasks, prices, order)
  {
    CostsByResource(Billed(tasks, prices), order);
    BillsArePaid(tasks, prices, order);
  }

  // ---------- The SimGrid runner ----------

  /** What the runner charges resource `r` when its tasks carry price `p`. */
  function RunnerBill(tasks: seq<Task>, r: Id, p: real): real {
    Window(TasksOf(tasks, r)) * p
  }

  function RunnerShares(tasks: seq<Task>, r: Id, p: real): seq<real> {
    var own := TasksOf(tasks, r);
    if own == [] then [] else Shares(RunnerBill(tasks, r, p), Sum(Durations(own)), |own|, Durations(own))
  }

  /** The runner's split also adds up to its bill. */
  lemma RunnerPaysItsBill(tasks: seq<Task>, r: Id, p: real)
    ensures Sum(RunnerShares(tasks, r, p)) == RunnerBill(tasks, r, p)
  {
    var own := TasksOf(tasks, r);
    if own != [] {
      SharesAddUp(RunnerBill(tasks, r, p), Durations(own));
    }
  }

  lemma ZeroProduct(w: real, p: real)
    ensures w * p == 0.0 <==> w == 0.0 || p == 0.0
  {
  }

  /** Both executors charge a resource the same, exactly unless it is active at a negative price. */
  lemma ExecutorsAgree(tasks: seq<Task>, prices: map<Id, real>, r: Id)
    ensures Sum(RunnerShares(tasks, r, Price(prices, r))) == Sum(Costs(TasksOf(Billed(tasks, prices), r)))
            <==> Price(prices, r) >= 0.0 || Window(TasksOf(tasks, r)) == 0.0
  {
    hide Sum, Window, Price, TasksOf, RunnerShares, Billed;
    RunnerPaysItsBill(tasks, r, Price(prices, r));
    ResourcePaysItsBill(tasks, prices, r);
    ZeroProduct(Window(TasksOf(tasks, r)), Price(prices, r));
  }

  /** One second on a resource that costs minus one: the runner credits it, the simulator does not. */
  lemma NegativePriceIsCredited()
    ensures var tasks, prices := [Task("x", 0.0, 1.0, 1.0, 0.0, 0.0, 0.0, 0.0)], map["x" := -1.0];
            && Sum(RunnerShares(tasks, "x", Price(prices, "x"))) == -1.0
            && Sum(Costs(TasksOf(Billed(tasks, prices), "x"))) == 0.0
  {
    var tasks, prices: map<Id, real> := [Task("x", 0.0, 1.0, 1.0, 0.0, 0.0, 0.0, 0.0)], map["x" := -1.0];
    assert IndexesOf(tasks, "x") == [0] by {
      assert tasks[..0] == [];
    }
    assert TasksOf(tasks, "x") == tasks;
    RunnerPaysItsBill(tasks, "x", -1.0);
    ResourcePaysItsBill(tasks, prices, "x");
  }

  // ---------- applyResourceActiveCosts ----------

  function At(groups: map<Id, seq<nat>>, r: Id): seq<nat> {
    if r in groups then groups[r] else []
  }

  function WithIndex(groups: map<Id, seq<nat>>, r: Id, i: nat): (g: map<Id, seq<nat>>)
    ensures forall x :: At(g, x) == if x == r then At(groups, x) + [i] else At(groups, x)
    ensures (forall x <- groups :: groups[x] != []) ==> forall x <- g :: g[x] != []
  {
    groups[r := At(groups, r) + [i]]
  }

  lemma NoIndexes()
    ensures forall r :: IndexesOf([], r) == []
  {
  }

  lemma IndexesSnoc(tasks: seq<Task>, i: nat)
    requires i < |tasks|
    ensures forall r {:trigger IndexesOf(tasks[..i + 1], r)} ::
              IndexesOf(tasks[..i + 1], r) ==
              if r == tasks[i].resource then IndexesOf(tasks[..i], r) + [i] else IndexesOf(tasks[..i], r)
  {
    assert tasks[..i + 1][..i] == tasks[..i];
  }

  /** Collects the positions of each resource's tasks and clears all costs. */
  method GroupByResource(tasks: array<Task>) returns (groups: map<Id, seq<nat>>)
    modifies tasks
    ensures forall r :: At(groups, r) == IndexesOf(old(tasks[..]), r)
    ensures forall r <- groups :: groups[r] != []
    ensures forall i :: 0 <= i < tasks.Length ==> tasks[i] == old(tasks[i]).(cost := 0.0)
  {
    hide WithIndex, IndexesOf;
    groups := map[];
    ghost var before := tasks[..];
    NoIndexes();
    assert before[..0] == [];
    for i := 0 to tasks.Length
      invariant forall r :: At(groups, r) == IndexesOf(before[..i], r)
      invariant forall r <- groups :: groups[r] != []
      invariant forall k :: 0 <= k < tasks.Length ==>
                  tasks[k] == if k < i then before[k].(cost := 0.0) else before[k]
    {
      IndexesSnoc(before, i);
      groups := WithIndex(groups, tasks[i].resource, i);
      tasks[i] := tasks[i].(cost := 0.0);
    }
    assert before[..tasks.Length] == before;
  }

  /** The active window and the runtime of the tasks at `indexes`. */
  method Measure(tasks: array<Task>, indexes: seq<nat>) returns (window: real, runtimeTotal: real)
    requires indexes != [] && Within(indexes, tasks.Length)
    ensures window == Window(TasksAt(tasks[..], indexes))
    ensures runtimeTotal == Sum(Runtimes(TasksAt(tasks[..], indexes)))
  {
    ghost var own := TasksAt(tasks[..], indexes);
    var start, finish := tasks[indexes[0]].start, tasks[indexes[0]].finish;
    runtimeTotal := 0.0;
    for k := 0 to |indexes|
      invariant start == Start(own[..if k == 0 then 1 else k]) && finish == Finish(own[..if k == 0 then 1 else k])
      invariant runtimeTotal == Sum(Runtimes(own[..k]))
    {
      assert own[..k + 1][..k] == own[..k];
      assert Runtimes(own[..k + 1])[..k] == Runtimes(own[..k]);
      start := Min(start, tasks[indexes[k]].start);
      finish := Max(finish, tasks[indexes[k]].finish);
      runtimeTotal := runtimeTotal + tasks[indexes[k]].runtime;
    }
    assert own[..|indexes|] == own;
    window := Max(0.0, finish - start);
  }

  /** Writes each task's share of `total`. */
  method Split(tasks: array<Task>, indexes: seq<nat>, total: real, runtimeTotal: real)
    requires indexes != [] && Within(indexes, tasks.Length)
    modifies tasks
    ensures forall i :: 0 <= i < tasks.Length ==>
              tasks[i] == if i in indexes
                          then old(tasks[i]).(cost := Share(total, runtimeTotal, |indexes|, old(tasks[i]).runtime))
                          else old(tasks[i])
  {
    hide Share;
    ghost var before := tasks[..];
    for k := 0 to |indexes|
      invariant forall i :: 0 <= i < tasks.Length ==>
                  tasks[i] == if i in indexes[..k]
                              then before[i].(cost := Share(total, runtimeTotal, |indexes|, before[i].runtime))
                              else before[i]
    {
      assert indexes[..k + 1] == indexes[..k] + [indexes[k]];
      var task := tasks[indexes[k]];
      tasks[indexes[k]] := task.(cost := Share(total, runtimeTotal, |indexes|, task.runtime));
    }
    assert indexes[..|indexes|] == indexes;
  }

  /** Position `i` after the resources outside `todo` have been charged. */
  ghost predicate Charged(before: seq<Task>, prices: map<Id, real>, todo: set<Id>, i: nat, now: Task)
    requires i < |before|
  {
    now == before[i].(cost := if before[i].resource in todo then 0.0 else TaskCost(before, prices, before[i]))
  }

  lemma {:induction false} InItsGroup(tasks: seq<Task>, i: nat, r: Id)
    requires i < |tasks|
    ensures i in IndexesOf(tasks, r) <==> tasks[i].resource == r
  {
    var n := |tasks| - 1;
    if i < n {
      InItsGroup(tasks[..n], i, r);
    } else {
      assert forall k <- IndexesOf(tasks[..n], r) :: k < n;
    }
  }

  /** Rewrites the cost of every task; nothing else about the tasks changes. */
  method ApplyResourceActiveCosts(tasks: array<Task>, prices: map<Id, real>)
    modifies tasks
    ensures tasks[..] == Billed(old(tasks[..]), prices)
  {
    ghost var before := tasks[..];
    var groups := GroupByResource(tasks);
    var todo := groups.Keys;
    forall i | 0 <= i < tasks.Length ensures Charged(before, prices, todo, i, tasks[i]) {
      InItsGroup(before, i, before[i].resource);
      assert At(groups, before[i].resource) == IndexesOf(before, before[i].resource);
    }
    while todo != {}
      invariant todo <= groups.Keys
      invariant forall i :: 0 <= i < tasks.Length ==> Charged(before, prices, todo, i, tasks[i])
    {
      var r :| r in todo;
      todo := todo - {r};
      ChargeGroup(tasks, groups[r], Price(prices, r), before, prices, r, todo);
    }
    assert tasks[..] == Billed(before, prices);
  }

  /** Charges the group of resource `r`, skipping it when its price is not positive. */
  method ChargeGroup(
    tasks: array<Task>, indexes: seq<nat>, price: real,
    ghost before: seq<Task>, ghost prices: map<Id, real>, ghost r: Id, ghost todo: set<Id>)
    requires |before| == tasks.Length && r !in todo && price == Price(prices, r)
    requires indexes == IndexesOf(before, r) && indexes != []
    requires forall i :: 0 <= i < tasks.Length ==> Charged(before, prices, todo + {r}, i, tasks[i])
    modifies tasks
    ensures forall i :: 0 <= i < tasks.Length ==> Charged(before, prices, todo, i, tasks[i])
  {
    hide Share, Window, Sum, TaskCost, Price;
    forall i | 0 <= i < tasks.Length {
      InItsGroup(before, i, r);
    }
    if price <= 0.0 {
      ZeroBill(before, prices, r);
      return;
    }
    SameMeasures(TasksOf(before, r), TasksAt(tasks[..], indexes));
    var window, runtimeTotal := Measure(tasks, indexes);
    var total := window * price;
    ghost var cleared := tasks[..];
    hide IndexesOf, TasksAt, Runtimes;
    Split(tasks, indexes, total, runtimeTotal);
    hide *;
    forall i | 0 <= i < tasks.Length ensures Charged(before, prices, todo, i, tasks[i]) {
      assert Charged(before, prices, todo + {r}, i, cleared[i]);
      if before[i].resource == r {
        CostIsShare(before, prices, before[i], total, window, runtimeTotal);
      }
      ChargeOne(before, prices, r, todo, i, cleared[i], tasks[i], indexes, total, runtimeTotal);
    }
  }

  lemma ChargeOne(
    before: seq<Task>, prices: map<Id, real>, r: Id, todo: set<Id>, i: nat, cleared: Task, task: Task,
    indexes: seq<nat>, total: real, runtimeTotal: real)
    requires i < |before| && r !in todo && Charged(before, prices, todo + {r}, i, cleared)
    requires indexes == IndexesOf(before, r) && indexes != []
    requires before[i].resource == r ==>
               TaskCost(before, prices, before[i]) == Share(total, runtimeTotal, |indexes|, before[i].runtime)
    requires task == if i in indexes
                     then cleared.(cost := Share(total, runtimeTotal, |indexes|, cleared.runtime)) else cleared
    ensures Charged(before, prices, todo, i, task)
  {
    InItsGroup(before, i, r);
    hide Share, TaskCost, IndexesOf;
  }

  lemma CostIsShare(
    tasks: seq<Task>, prices: map<Id, real>, t: Task, total: real, window: real, runtimeTotal: real)
    requires Price(prices, t.resource) > 0.0 && IndexesOf(tasks, t.resource) != []
    requires total == window * Price(prices, t.resource) && window == Window(TasksOf(tasks, t.resource))
    requires runtimeTotal == Sum(Runtimes(TasksOf(tasks, t.resource)))
    ensures TaskCost(tasks, prices, t) == Share(total, runtimeTotal, |IndexesOf(tasks, t.resource)|, t.runtime)
  {
    hide Share, Window, Sum, Runtimes, Price, IndexesOf, TasksOf;
    var own := TasksOf(tasks, t.resource);
    assert |own| == |IndexesOf(tasks, t.resource)| by {
      LengthOfTasks(tasks, t.resource);
    }
    assert Bill(tasks, prices, t.resource) == total;
  }

  lemma LengthOfTasks(tasks: seq<Task>, r: Id)
    ensures |TasksOf(tasks, r)| == |IndexesOf(tasks, r)|
  {
  }

  /** Splitting nothing costs nothing. */
  lemma ZeroBill(tasks: seq<Task>, prices: map<Id, real>, r: Id)
    requires Price(prices, r) <= 0.0
    ensures forall t: Task :: t.resource == r ==> TaskCost(tasks, prices, t) == 0.0
  {
  }

  /** Costs do not enter the window or the weights. */
  lemma {:induction false} SameMeasures(a: seq<Task>, b: seq<Task>)
    requires |a| == |b| && forall k :: 0 <= k < |a| ==> a[k] == b[k].(cost := a[k].cost)
    ensures Window(a) == Window(b) && Runtimes(a) == Runtimes(b)
    ensures a != [] ==> Start(a) == Start(b) && Finish(a) == Finish(b)
  {
    if |a| > 1 {
      SameMeasures(a[..|a| - 1], b[..|a| - 1]);
    }
  }

  // ---------- task_costs of the SimGrid runner ----------

  datatype ActiveWindow = ActiveWindow(start: real, finish: real, ids: seq<nat>)

  /** The window recorded for a resource describes exactly its tasks. */
  ghost predicate Describes(w: ActiveWindow, tasks: seq<Task>, r: Id) {
    && w.ids == IndexesOf(tasks, r)
    && w.ids != []
    && w.start == Start(TasksOf(tasks, r))
    && w.finish == Finish(TasksOf(tasks, r))
  }

  ghost predicate DescribedAt(windows: map<Id, ActiveWindow>, tasks: seq<Task>, r: Id) {
    if r in windows then Describes(windows[r], tasks, r) else IndexesOf(tasks, r) == []
  }

  function Widened(windows: map<Id, ActiveWindow>, t: Task, i: nat): map<Id, ActiveWindow> {
    windows[t.resource :=
      if t.resource !in windows then ActiveWindow(t.start, t.finish, [i])
      else
        var w := windows[t.resource];
        ActiveWindow(Min(w.start, t.start), Max(w.finish, t.finish), w.ids + [i])]
  }

  lemma OwnSnoc(tasks: seq<Task>, i: nat, r: Id)
    requires i < |tasks|
    ensures TasksOf(tasks[..i + 1], r) ==
              TasksOf(tasks[..i], r) + (if tasks[i].resource == r then [tasks[i]] else [])
  {
    IndexesSnoc(tasks, i);
  }

  lemma WidenWindow(own: seq<Task>, t: Task)
    ensures Start(own + [t]) == (if own == [] then t.start else Min(Start(own), t.start))
    ensures Finish(own + [t]) == (if own == [] then t.finish else Max(Finish(own), t.finish))
  {
  }

  lemma WidenOne(tasks: seq<Task>, windows: map<Id, ActiveWindow>, i: nat, r: Id)
    requires i < |tasks| && DescribedAt(windows, tasks[..i], r)
    ensures DescribedAt(Widened(windows, tasks[i], i), tasks[..i + 1], r)
  {
    hide TasksOf, IndexesOf, Start, Finish;
    var own, t := TasksOf(tasks[..i], r), tasks[i];
    IndexesSnoc(tasks, i);
    OwnSnoc(tasks, i, r);
    LengthOfTasks(tasks[..i], r);
    if r == t.resource {
      WidenWindow(own, t);
    } else {
      assert TasksOf(tasks[..i + 1], r) == own;
    }
  }

  method Windows(tasks: seq<Task>) returns (windows: map<Id, ActiveWindow>)
    ensures forall r :: DescribedAt(windows, tasks, r)
  {
    windows := map[];
    for i := 0 to |tasks|
      invariant forall r :: DescribedAt(windows, tasks[..i], r)
    {
      var wider := Widened(windows, tasks[i], i);
      ghost var seen := tasks[..i + 1];
      forall r ensures DescribedAt(wider, seen, r) {
        WidenOne(tasks, windows, i, r);
      }
      windows := wider;
    }
    assert tasks[..|tasks|] == tasks;
  }

  /** What the runner charges the task at position `i`. */
  function RunnerCost(tasks: seq<Task>, prices: map<Id, real>, i: nat): real
    requires i < |tasks| && TasksOf(tasks, tasks[i].resource) != []
  {
    var r := tasks[i].resource;
    var own := TasksOf(tasks, r);
    Share(RunnerBill(tasks, r, Price(prices, r)), Sum(Durations(own)), |own|, tasks[i].finish - tasks[i].start)
  }

  method WriteShares(tasks: seq<Task>, ids: seq<nat>, total: real, durationSum: real, costs0: map<nat, real>)
    returns (costs: map<nat, real>)
    requires Within(ids, |tasks|)
    ensures costs.Keys == costs0.Keys + set i | i in ids
    ensures forall i <- costs0 :: i !in ids ==> costs[i] == costs0[i]
    ensures forall i <- ids ::
              i < |tasks| && costs[i] == Share(total, durationSum, |ids|, tasks[i].finish - tasks[i].start)
  {
    hide Share;
    costs := costs0;
    for k := 0 to |ids|
      invariant costs.Keys == costs0.Keys + set i | i in ids[..k]
      invariant forall i <- costs0 :: i !in ids[..k] ==> costs[i] == costs0[i]
      invariant forall i <- ids[..k] ::
                  i < |tasks| && costs[i] == Share(total, durationSum, |ids|, tasks[i].finish - tasks[i].start)
    {
      assert ids[..k + 1] == ids[..k] + [ids[k]];
      var id := ids[k];
      costs := costs[id := Share(total, durationSum, |ids|, tasks[id].finish - tasks[id].start)];
    }
    assert ids[..|ids|] == ids;
  }

  method TotalDuration(tasks: seq<Task>, ids: seq<nat>) returns (durationSum: real)
    requires Within(ids, |tasks|)
    ensures durationSum == Sum(Durations(TasksAt(tasks, ids)))
  {
    ghost var own := TasksAt(tasks, ids);
    durationSum := 0.0;
    for k := 0 to |ids|
      invariant durationSum == Sum(Durations(own[..k]))
    {
      assert Durations(own[..k + 1])[..k] == Durations(own[..k]);
      durationSum := durationSum + (tasks[ids[k]].finish - tasks[ids[k]].start);
    }
    assert own[..|ids|] == own;
  }

  ghost predicate Reported(tasks: seq<Task>, prices: map<Id, real>, costs: map<nat, real>, i: nat)
    requires i < |tasks|
  {
    i in costs && TasksOf(tasks, tasks[i].resource) != [] && costs[i] == RunnerCost(tasks, prices, i)
  }

  lemma ReportedWhen(
    tasks: seq<Task>, prices: map<Id, real>, costs: map<nat, real>, i: nat, w: ActiveWindow, total: real, sum: real)
    requires i < |tasks| && Describes(w, tasks, tasks[i].resource) && i in costs
    requires total == Max(0.0, w.finish - w.start) * Price(prices, tasks[i].resource)
    requires sum == Sum(Durations(TasksOf(tasks, tasks[i].resource)))
    requires costs[i] == Share(total, sum, |w.ids|, tasks[i].finish - tasks[i].start)
    ensures Reported(tasks, prices, costs, i)
  {
  }

  /** Splits the bill of one window by duration. */
  method ChargeWindow(
    tasks: seq<Task>, w: ActiveWindow, price: real, ghost prices: map<Id, real>, ghost r: Id, costs0: map<nat, real>)
    returns (costs: map<nat, real>)
    requires Describes(w, tasks, r) && price == Price(prices, r)
    ensures forall i :: 0 <= i < |tasks| && (tasks[i].resource == r || Reported(tasks, prices, costs0, i)) ==>
              Reported(tasks, prices, costs, i)
  {
    var total := Max(0.0, w.finish - w.start) * price;
    var durationSum := TotalDuration(tasks, w.ids);
    costs := WriteShares(tasks, w.ids, total, durationSum, costs0);
    hide *;
    forall i | 0 <= i < |tasks| && (tasks[i].resource == r || Reported(tasks, prices, costs0, i))
      ensures Reported(tasks, prices, costs, i)
    {
      ChargedTask(tasks, w, price, prices, r, costs0, costs, total, durationSum, i);
    }
  }

  lemma ChargedTask(
    tasks: seq<Task>, w: ActiveWindow, price: real, prices: map<Id, real>, r: Id, costs0: map<nat, real>,
    costs: map<nat, real>, total: real, durationSum: real, i: nat)
    requires Describes(w, tasks, r) && price == Price(prices, r) && i < |tasks|
    requires total == Max(0.0, w.finish - w.start) * price && durationSum == Sum(Durations(TasksAt(tasks, w.ids)))
    requires i in w.ids ==>
               i in costs && costs[i] == Share(total, durationSum, |w.ids|, tasks[i].finish - tasks[i].start)
    requires i in costs0 && i !in w.ids ==> i in costs && costs[i] == costs0[i]
    requires tasks[i].resource == r || Reported(tasks, prices, costs0, i)
    ensures Reported(tasks, prices, costs, i)
  {
    InItsGroup(tasks, i, r);
    if tasks[i].resource == r {
      assert w.ids == IndexesOf(tasks, r);
      hide Share, Sum, Durations, Price, RunnerCost, Reported;
      ReportedWhen(tasks, prices, costs, i, w, total, durationSum);
    } else {
      hide Share, Sum, Durations, Price, RunnerCost, TasksOf;
    }
  }

  /** The cost of every task as the runner reports it. */
  method TaskCosts(tasks: seq<Task>, prices: map<Id, real>) returns (costs: map<nat, real>)
    ensures forall i :: 0 <= i < |tasks| ==> Reported(tasks, prices, costs, i)
  {
    hide Reported, Describes;
    var windows := Windows(tasks);
    costs := map[];
    var todo := windows.Keys;
    while todo != {}
      invariant todo <= windows.Keys
      invariant forall i :: 0 <= i < |tasks| && tasks[i].resource in windows.Keys - todo ==>
                  Reported(tasks, prices, costs, i)
    {
      var r :| r in todo;
      todo := todo - {r};
      assert DescribedAt(windows, tasks, r);
      costs := ChargeWindow(tasks, windows[r], Price(prices, r), prices, r, costs);
    }
    forall i | 0 <= i < |tasks| ensures tasks[i].resource in windows {
      InItsGroup(tasks, i, tasks[i].resource);
      assert DescribedAt(windows, tasks, tasks[i].resource);
    }
  }

  /** The costs the runner reports for a resource are the shares of its bill. */
  lemma ReportedCostsAreShares(tasks: seq<Task>, prices: map<Id, real>, costs: map<nat, real>, r: Id, k: nat)
    requires forall i :: 0 <= i < |tasks| ==> Reported(tasks, prices, costs, i)
    requires k < |IndexesOf(tasks, r)|
    ensures IndexesOf(tasks, r)[k] in costs
    ensures |RunnerShares(tasks, r, Price(prices, r))| == |IndexesOf(tasks, r)|
    ensures costs[IndexesOf(tasks, r)[k]] == RunnerShares(tasks, r, Price(prices, r))[k]
  {
    hide Share, Sum, Window;
    var i := IndexesOf(tasks, r)[k];
    LengthOfTasks(tasks, r);
    assert Reported(tasks, prices, costs, i);
  }

  // ---------- Metrics of the trace ----------

  function Latest(tasks: seq<Task>): real {
    if tasks == [] then 0.0 else Max(Latest(tasks[..|tasks| - 1]), tasks[|tasks| - 1].finish)
  }

  function Queues(tasks: seq<Task>): seq<real> {
    seq(|tasks|, i requires 0 <= i < |tasks| => tasks[i].queue)
  }

  function TransferTimes(tasks: seq<Task>): seq<real> {
    seq(|tasks|, i requires 0 <= i < |tasks| => tasks[i].transfer)
  }

  function Overheads(tasks: seq<Task>): seq<real> {
    seq(|tasks|, i requires 0 <= i < |tasks| => tasks[i].overhead)
  }

  datatype Metrics = Metrics(
    makespan: real, compute: real, queue: real, transfer: real, overhead: real, cost: real, feasible: bool)

  /** The metrics of the tasks alone. */
  function Totals(tasks: seq<Task>): Metrics {
    Metrics(Latest(tasks), Sum(Runtimes(tasks)), Sum(Queues(tasks)), Sum(TransferTimes(tasks)), Sum(Overheads(tasks)),
            Sum(Costs(tasks)), true)
  }

  lemma TotalsSnoc(tasks: seq<Task>, i: nat)
    requires i < |tasks|
    ensures var before, t := Totals(tasks[..i]), tasks[i];
            Totals(tasks[..i + 1])
            == Metrics(Max(before.makespan, t.finish), before.compute + t.runtime, before.queue + t.queue,
                       before.transfer + t.transfer, before.overhead + t.overhead, before.cost + t.cost, true)
  {
    var all := tasks[..i + 1];
    assert all[..i] == tasks[..i];
    assert Runtimes(all)[..i] == Runtimes(tasks[..i]) && Queues(all)[..i] == Queues(tasks[..i]);
    assert TransferTimes(all)[..i] == TransferTimes(tasks[..i]) && Overheads(all)[..i] == Overheads(tasks[..i]);
    assert Costs(all)[..i] == Costs(tasks[..i]);
  }

  /** Adds up the tasks. */
  method AddTasks(tasks: array<Task>) returns (m: Metrics)
    ensures m == Totals(tasks[..])
  {
    m := Metrics(0.0, 0.0, 0.0, 0.0, 0.0, 0.0, true);
    assert m == Totals([]);
    hide Totals;
    for i := 0 to tasks.Length
      invariant m == Totals(tasks[..i])
    {
      assert tasks[..][..i] == tasks[..i] && tasks[..][..i + 1] == tasks[..i + 1];
      TotalsSnoc(tasks[..], i);
      var t := tasks[i];
      m := Metrics(Max(m.makespan, t.finish), m.compute + t.runtime, m.queue + t.queue, m.transfer + t.transfer,
                   m.overhead + t.overhead, m.cost + t.cost, true);
    }
    assert tasks[..tasks.Length] == tasks[..];
  }

  method AddCosts(base: real, costs: seq<real>) returns (total: real)
    ensures total == base + Sum(costs)
  {
    total := base;
    for i := 0 to |costs|
      invariant total == base + Sum(costs[..i])
    {
      assert costs[..i + 1][..i] == costs[..i];
      total := total + costs[i];
    }
    assert costs[..|costs|] == costs;
  }

  /** Billing changes costs only. */
  lemma BillingKeepsTimes(tasks: seq<Task>, prices: map<Id, real>)
    ensures Totals(Billed(tasks, prices)) == Totals(tasks).(cost := Sum(Costs(Billed(tasks, prices))))
  {
    var billed := Billed(tasks, prices);
    assert Runtimes(billed) == Runtimes(tasks) && Queues(billed) == Queues(tasks);
    assert TransferTimes(billed) == TransferTimes(tasks) && Overheads(billed) == Overheads(tasks);
    SameFinishes(billed, tasks);
  }

  lemma {:induction false} SameFinishes(a: seq<Task>, b: seq<Task>)
    requires |a| == |b| && forall i :: 0 <= i < |a| ==> a[i].finish == b[i].finish
    ensures Latest(a) == Latest(b)
  {
    if a != [] {
      SameFinishes(a[..|a| - 1], b[..|b| - 1]);
    }
  }

  /** Bills the resources and adds everything up; `order` may be any listing of the resources in use. */
  method BuildMetrics(tasks: array<Task>, prices: map<Id, real>, transferCosts: seq<real>, deadline: real, budget: real,
                      ghost order: seq<Id>)
    returns (m: Metrics)
    requires Distinct(order) && forall i :: 0 <= i < tasks.Length ==> tasks[i].resource in order
    modifies tasks
    ensures tasks[..] == Billed(old(tasks[..]), prices)
    ensures m == Totals(old(tasks[..])).(
                   cost := BillOfAll(old(tasks[..]), prices, order) + Sum(transferCosts),
                   feasible := (deadline <= 0.0 || m.makespan <= deadline) && (budget <= 0.0 || m.cost <= budget))
  {
    TasksPayTheBills(tasks[..], prices, order);
    BillingKeepsTimes(tasks[..], prices);
    hide *;
    ApplyResourceActiveCosts(tasks, prices);
    m := AddTasks(tasks);
    var cost := AddCosts(m.cost, transferCosts);
    m := m.(cost := cost);
    if deadline > 0.0 && m.makespan > deadline {
      m := m.(feasible := false);
    }
    if budget > 0.0 && m.cost > budget {
      m := m.(feasible := false);
    }
  }
}
