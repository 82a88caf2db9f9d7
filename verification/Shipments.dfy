/** The transfers of a whole simulation: exactly those that its executions needed. */
module Shipments {
  import opened Graphs
  import opened Simulation

  /** The transfers whose data `a` consumes, in the order in which they were recorded. */
  function For(transfers: seq<Transfer>, a: Id): seq<Transfer> {
    if transfers == [] then [] else
      var n := |transfers| - 1;
      For(transfers[..n], a) + if transfers[n].consumer == a then [transfers[n]] else []
  }

  /** `a` ran after what it waits for, when its data had been moved, once per predecessor that needs it. */
  ghost predicate ShippedAt(
    request: Request, previous: map<Id, Id>, done: Executions, transfers: seq<Transfer>, a: Id)
    requires a in done
  {
    && Ready(request, previous, done, a)
    && Carried(request, done, Predecessors(request, a), a, For(transfers, a))
    && done[a] == ExecutionWith(request, previous, done, a, For(transfers, a))
  }

  /** Every execution follows from its transfers and what finished before, and nothing else was moved. */
  ghost predicate Shipped(request: Request, previous: map<Id, Id>, done: Executions, transfers: seq<Transfer>) {
    && (forall a <- done :: ShippedAt(request, previous, done, transfers, a))
    && (forall t <- transfers :: t.consumer in done)
  }

  /** Without negative latencies, the executions solve the equations of the plan. */
  lemma ShippedIsTimed(request: Request, previous: map<Id, Id>, done: Executions, transfers: seq<Transfer>)
    requires Sane(request) && Shipped(request, previous, done, transfers)
    ensures Timed(request, previous, done)
  {
    forall a <- done ensures TimedAt(request, previous, done, a) {
      assert ShippedAt(request, previous, done, transfers, a);
      FastestTransfers(request, done, Predecessors(request, a), a, For(transfers, a));
    }
  }

  lemma {:induction false} ForConcat(x: seq<Transfer>, y: seq<Transfer>, a: Id)
    ensures For(x + y, a) == For(x, a) + For(y, a)
  {
    if y == [] {
      assert x + y == x;
    } else {
      var n := |y| - 1;
      assert (x + y)[..|x + y| - 1] == x + y[..n];
      ForConcat(x, y[..n], a);
    }
  }

  lemma {:induction false} ForAll(x: seq<Transfer>, a: Id)
    requires forall t <- x :: t.consumer == a
    ensures For(x, a) == x
  {
    if x != [] {
      ForAll(x[..|x| - 1], a);
      assert x == x[..|x| - 1] + [x[|x| - 1]];
    }
  }

  lemma {:induction false} ForNone(x: seq<Transfer>, a: Id)
    requires forall t <- x :: t.consumer != a
    ensures For(x, a) == []
  {
    if x != [] {
      ForNone(x[..|x| - 1], a);
    }
  }

  lemma {:induction false} CarriedAreFor(
    request: Request, done: Executions, predecessors: seq<Id>, a: Id, transfers: seq<Transfer>)
    requires Carried(request, done, predecessors, a, transfers)
    ensures forall t <- transfers :: t.consumer == a
  {
    if predecessors != [] {
      var n, k := |predecessors| - 1, |transfers| - 1;
      if NeedsTransfer(request, predecessors[n], a) {
        CarriedAreFor(request, done, predecessors[..n], a, transfers[..k]);
        assert transfers == transfers[..k] + [transfers[k]];
      } else {
        CarriedAreFor(request, done, predecessors[..n], a, transfers);
      }
    }
  }

  /** Transfers stay right while more activities run. */
  lemma {:induction false} CarriedGrows(
    request: Request, done: Executions, more: Executions, predecessors: seq<Id>, a: Id, transfers: seq<Transfer>)
    requires forall p <- predecessors :: FinishOf(done, p) == FinishOf(more, p)
    requires Carried(request, done, predecessors, a, transfers)
    ensures Carried(request, more, predecessors, a, transfers)
  {
    if predecessors != [] {
      var n, k := |predecessors| - 1, |transfers| - 1;
      assert predecessors[n] in predecessors;
      if NeedsTransfer(request, predecessors[n], a) {
        CarriedGrows(request, done, more, predecessors[..n], a, transfers[..k]);
      } else {
        CarriedGrows(request, done, more, predecessors[..n], a, transfers);
      }
    }
  }

  lemma {:induction false} ReadyWithGrows(
    request: Request, done: Executions, more: Executions, predecessors: seq<Id>, a: Id, transfers: seq<Transfer>)
    requires forall p <- predecessors :: FinishOf(done, p) == FinishOf(more, p)
    ensures ReadyWith(request, done, predecessors, a, transfers) == ReadyWith(request, more, predecessors, a, transfers)
  {
    if predecessors != [] {
      var n, k := |predecessors| - 1, |transfers| - 1;
      assert predecessors[n] in predecessors;
      if NeedsTransfer(request, predecessors[n], a) && k >= 0 {
        ReadyWithGrows(request, done, more, predecessors[..n], a, transfers[..k]);
      } else {
        ReadyWithGrows(request, done, more, predecessors[..n], a, transfers);
      }
    }
  }

  /** What follows from the past does not change when `x` runs as well. */
  lemma ShippedStays(request: Request, previous: map<Id, Id>, done: Executions, x: Id, e: Execution, a: Id,
                     moved: seq<Transfer>)
    requires x !in done && Ready(request, previous, done, a)
    requires Carried(request, done, Predecessors(request, a), a, moved)
    ensures var more := done[x := e];
            && Ready(request, previous, more, a)
            && Carried(request, more, Predecessors(request, a), a, moved)
            && ExecutionWith(request, previous, more, a, moved) == ExecutionWith(request, previous, done, a, moved)
  {
    var more := done[x := e];
    assert forall p <- Predecessors(request, a) :: FinishOf(done, p) == FinishOf(more, p);
    hide Carried;
    CarriedGrows(request, done, more, Predecessors(request, a), a, moved);
    ReadyWithGrows(request, done, more, Predecessors(request, a), a, moved);
    hide ReadyWith;
  }

  lemma ForOneMore(transfers: seq<Transfer>, moved: seq<Transfer>, x: Id, a: Id)
    requires (forall t <- transfers :: t.consumer != x) && forall t <- moved :: t.consumer == x
    ensures For(transfers + moved, a) == if a == x then moved else For(transfers, a)
  {
    ForConcat(transfers, moved, a);
    if a == x {
      ForNone(transfers, x);
      ForAll(moved, x);
    } else {
      ForNone(moved, a);
    }
  }

  lemma ShipOne(request: Request, previous: map<Id, Id>, done: Executions, transfers: seq<Transfer>,
                x: Id, moved: seq<Transfer>)
    requires Shipped(request, previous, done, transfers) && x !in done && Ready(request, previous, done, x)
    requires Carried(request, done, Predecessors(request, x), x, moved)
    ensures Shipped(request, previous, done[x := ExecutionWith(request, previous, done, x, moved)], transfers + moved)
  {
    var e := ExecutionWith(request, previous, done, x, moved);
    var more := done[x := e];
    CarriedAreFor(request, done, Predecessors(request, x), x, moved);
    hide Carried, For, ExecutionWith, Ready;
    forall a <- more ensures ShippedAt(request, previous, more, transfers + moved, a) {
      ForOneMore(transfers, moved, x, a);
      if a != x {
        assert ShippedAt(request, previous, done, transfers, a);
        ShippedStays(request, previous, done, x, e, a, For(transfers, a));
      } else {
        ShippedStays(request, previous, done, x, e, x, moved);
      }
    }
  }
}
