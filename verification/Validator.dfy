/**
 The plan validator: Kahn's algorithm over the workflow dependencies, the order of
 activities within resource lanes, and the checks that every activity is assigned once.
 */
module Validator {
  import opened Graphs
  import opened Outcomes
  import opened Dependencies

  datatype DagError =
    | UnknownActivity(id: Id)
    | UnknownPredecessor(id: Id)
    | SelfDependency(id: Id)
    | Cycle

  function RecordFault(known: set<Id>, d: Dependency): Option<DagError> {
    if d.activity !in known then Some(UnknownActivity(d.activity))
    else if d.dependsOn !in known then Some(UnknownPredecessor(d.dependsOn))
    else if d.activity == d.dependsOn then Some(SelfDependency(d.activity))
    else None
  }

  ghost predicate AllKnown(known: set<Id>, dependencies: seq<Dependency>) {
    forall d <- dependencies :: d.activity in known && d.dependsOn in known
  }

  ghost predicate FaultFree(known: set<Id>, dependencies: seq<Dependency>) {
    forall d <- dependencies :: RecordFault(known, d).None?
  }

  // ---------- Counting dependency records ----------

  /** Records that make `x` wait for something outside `done`. */
  ghost function Waiting(dependencies: seq<Dependency>, x: Id, done: set<Id>): nat {
    if dependencies == [] then 0 else
      var n := |dependencies| - 1;
      Waiting(dependencies[..n], x, done) +
      if dependencies[n].activity == x && dependencies[n].dependsOn !in done then 1 else 0
  }

  /** Activities released by `id`, once per record. */
  function SuccessorsOf(dependencies: seq<Dependency>, id: Id): seq<Id> {
    if dependencies == [] then [] else
      var n := |dependencies| - 1;
      SuccessorsOf(dependencies[..n], id) +
      (if dependencies[n].dependsOn == id then [dependencies[n].activity] else [])
  }

  lemma WaitingSnoc(dependencies: seq<Dependency>, i: nat)
    requires i < |dependencies|
    ensures forall x {:trigger Waiting(dependencies[..i + 1], x, {})} ::
              Waiting(dependencies[..i + 1], x, {})
              == Waiting(dependencies[..i], x, {}) + if dependencies[i].activity == x then 1 else 0
  {
    assert dependencies[..i + 1][..i] == dependencies[..i];
  }

  lemma SuccessorsSnoc(dependencies: seq<Dependency>, i: nat)
    requires i < |dependencies|
    ensures forall x {:trigger SuccessorsOf(dependencies[..i + 1], x)} ::
              SuccessorsOf(dependencies[..i + 1], x)
              == if dependencies[i].dependsOn == x
                 then SuccessorsOf(dependencies[..i], x) + [dependencies[i].activity]
                 else SuccessorsOf(dependencies[..i], x)
  {
    assert dependencies[..i + 1][..i] == dependencies[..i];
  }

  /** Finishing `id` removes exactly the records counted by its successor list. */
  lemma {:induction false} FinishOne(dependencies: seq<Dependency>, x: Id, done: set<Id>, id: Id)
    requires id !in done
    ensures Waiting(dependencies, x, done)
         == Waiting(dependencies, x, done + {id}) + multiset(SuccessorsOf(dependencies, id))[x]
  {
    if dependencies != [] {
      var n := |dependencies| - 1;
      FinishOne(dependencies[..n], x, done, id);
    }
  }

  lemma {:induction false} NothingWaiting(dependencies: seq<Dependency>, x: Id, done: set<Id>)
    ensures Waiting(dependencies, x, done) == 0 <==>
              forall d <- dependencies :: d.activity == x ==> d.dependsOn in done
  {
    if dependencies != [] {
      var n := |dependencies| - 1;
      NothingWaiting(dependencies[..n], x, done);
      assert dependencies == dependencies[..n] + [dependencies[n]];
    }
  }

  lemma {:induction false} SuccessorsKnown(dependencies: seq<Dependency>, known: set<Id>, id: Id)
    requires AllKnown(known, dependencies)
    ensures forall s <- SuccessorsOf(dependencies, id) :: s in known
  {
    if dependencies != [] {
      var n := |dependencies| - 1;
      SuccessorsKnown(dependencies[..n], known, id);
      assert dependencies[n] in dependencies;
    }
  }

  // ---------- Kahn's algorithm ----------

  /**
   Activities without an open record have been queued: they are finished or still in the queue.
   Nothing enters the queue twice; `entered` is the history of the queue.
   */
  ghost predicate Queued(known: set<Id>, indegree: map<Id, int>, done: set<Id>, queue: seq<Id>, entered: seq<Id>) {
    && indegree.Keys == known
    && (forall x <- known :: x in entered <==> indegree[x] == 0)
    && (forall x :: x in entered <==> x in done || x in queue)
    && (forall x <- entered :: x in known)
    && (forall x <- queue :: x !in done)
    && Distinct(queue)
    && Distinct(entered)
  }

  method IndexDependencies(known: set<Id>, dependencies: seq<Dependency>)
    returns (fault: Option<DagError>, indegree: map<Id, int>, successors: map<Id, seq<Id>>)
    ensures fault.Some? ==>
              exists i :: 0 <= i < |dependencies| && FaultFree(known, dependencies[..i])
                          && RecordFault(known, dependencies[i]) == fault
    ensures fault.None? ==>
              && FaultFree(known, dependencies)
              && indegree.Keys == known
              && (forall x <- known :: indegree[x] == Waiting(dependencies, x, {}))
              && (forall x :: Lookup(successors, x) == SuccessorsOf(dependencies, x))
  {
    indegree := map id | id in known :: 0;
    successors := map[];
    for i := 0 to |dependencies|
      invariant FaultFree(known, dependencies[..i])
      invariant indegree.Keys == known
      invariant forall x <- known :: indegree[x] == Waiting(dependencies[..i], x, {})
      invariant forall x :: Lookup(successors, x) == SuccessorsOf(dependencies[..i], x)
    {
      var d := dependencies[i];
      fault := RecordFault(known, d);
      if fault.Some? {
        return;
      }
      assert dependencies[..i + 1] == dependencies[..i] + [d];
      WaitingSnoc(dependencies, i);
      SuccessorsSnoc(dependencies, i);
      indegree := indegree[d.activity := indegree[d.activity] + 1];
      successors := Appended(successors, d.dependsOn, d.activity);
    }
    assert dependencies[..|dependencies|] == dependencies;
    fault := None;
  }

  method InitialQueue(known: set<Id>, indegree: map<Id, int>) returns (queue: seq<Id>)
    requires indegree.Keys == known
    ensures Queued(known, indegree, {}, queue, queue)
  {
    queue := [];
    var todo := known;
    while todo != {}
      invariant todo <= known
      invariant forall x <- known :: x in queue <==> x !in todo && indegree[x] == 0
      invariant forall x <- queue :: x in known - todo
      invariant Distinct(queue)
    {
      var id :| id in todo;
      todo := todo - {id};
      if indegree[id] == 0 {
        DistinctSnoc(queue, id);
        queue := queue + [id];
      }
    }
  }

  lemma CountPrefix(s: seq<Id>, j: nat)
    requires j < |s|
    ensures forall x :: multiset(s[..j + 1])[x] == multiset(s[..j])[x] + if x == s[j] then 1 else 0
    ensures multiset(s[..j])[s[j]] < multiset(s)[s[j]]
  {
    assert s[..j + 1] == s[..j] + [s[j]];
    assert s == s[..j + 1] + s[j + 1..];
  }

  lemma QueueOne(
    known: set<Id>, indegree: map<Id, int>, done: set<Id>, queue: seq<Id>, entered: seq<Id>, s: Id)
    requires Queued(known, indegree, done, queue, entered) && s in known && indegree[s] > 0
    ensures indegree[s] > 1 ==> Queued(known, indegree[s := indegree[s] - 1], done, queue, entered)
    ensures indegree[s] == 1 ==> Queued(known, indegree[s := 0], done, queue + [s], entered + [s])
  {
  }

  /** What was appended to the queue was appended to its history. */
  ghost predicate Continues(queue0: seq<Id>, entered0: seq<Id>, queue: seq<Id>, entered: seq<Id>) {
    queue0 <= queue && entered == entered0 + queue[|queue0|..]
  }

  lemma ContinueOne(queue0: seq<Id>, entered0: seq<Id>, queue: seq<Id>, entered: seq<Id>, s: Id)
    requires Continues(queue0, entered0, queue, entered)
    ensures Continues(queue0, entered0, queue + [s], entered + [s])
  {
  }

  /** Decrements the successors of one finished activity, queueing those that become free. */
  method Release(
    ghost known: set<Id>, indegree0: map<Id, int>, successors: seq<Id>,
    ghost done: set<Id>, queue0: seq<Id>, ghost entered0: seq<Id>)
    returns (indegree: map<Id, int>, queue: seq<Id>, ghost entered: seq<Id>)
    requires Queued(known, indegree0, done, queue0, entered0)
    requires forall s <- successors :: s in known
    requires forall x <- known :: indegree0[x] >= multiset(successors)[x]
    ensures Queued(known, indegree, done, queue, entered)
    ensures Lowered(known, indegree0, successors, indegree)
    ensures Continues(queue0, entered0, queue, entered)
  {
    assert Continues(queue0, entered0, queue0, entered0) && Lowered(known, indegree0, successors[..0], indegree0);
    hide Queued, Continues, Lowered;
    indegree, queue, entered := indegree0, queue0, entered0;
    for j := 0 to |successors|
      invariant Queued(known, indegree, done, queue, entered)
      invariant Lowered(known, indegree0, successors[..j], indegree)
      invariant Continues(queue0, entered0, queue, entered)
    {
      var s := successors[j];
      LowerOne(known, indegree0, successors, indegree, j);
      QueueOne(known, indegree, done, queue, entered, s);
      indegree := indegree[s := indegree[s] - 1];
      if indegree[s] == 0 {
        ContinueOne(queue0, entered0, queue, entered, s);
        queue, entered := queue + [s], entered + [s];
      }
    }
    assert successors[..|successors|] == successors;
  }

  /** Each record of a successor has lowered its in-degree by one. */
  ghost predicate Lowered(known: set<Id>, before: map<Id, int>, successors: seq<Id>, after: map<Id, int>) {
    && known == before.Keys == after.Keys
    && forall x <- known :: after[x] == before[x] - multiset(successors)[x]
  }

  lemma LowerOne(known: set<Id>, before: map<Id, int>, successors: seq<Id>, after: map<Id, int>, j: nat)
    requires j < |successors| && Lowered(known, before, successors[..j], after) && successors[j] in known
    requires forall x <- known :: before[x] >= multiset(successors)[x]
    ensures successors[j] in after && after[successors[j]] > 0
    ensures Lowered(known, before, successors[..j + 1], after[successors[j] := after[successors[j]] - 1])
  {
    CountPrefix(successors, j);
  }

  /** The next queued activity has all its predecessors behind it. */
  lemma RankNext(dependencies: seq<Dependency>, id: Id, done: set<Id>, rank: map<Id, nat>)
    requires id !in done && Waiting(dependencies, id, done) == 0 && Finished(DependencyEdges(dependencies), done, rank)
    ensures Finished(DependencyEdges(dependencies), done + {id}, rank[id := |done|])
  {
    NothingWaiting(dependencies, id, done);
    FinishNext(DependencyEdges(dependencies), done, rank, id);
  }

  lemma Dequeue(known: set<Id>, indegree: map<Id, int>, done: set<Id>, queue: seq<Id>, entered: seq<Id>)
    requires Queued(known, indegree, done, queue, entered) && queue != []
    ensures queue[0] !in done && queue[0] in known && indegree[queue[0]] == 0
    ensures Queued(known, indegree, done + {queue[0]}, queue[1..], entered)
  {
  }

  lemma FinishAll(known: set<Id>, dependencies: seq<Dependency>, indegree: map<Id, int>, done: set<Id>, id: Id)
    requires id !in done && indegree.Keys == known
    requires forall x <- known :: indegree[x] == Waiting(dependencies, x, done)
    ensures forall x <- known ::
              indegree[x] == Waiting(dependencies, x, done + {id}) + multiset(SuccessorsOf(dependencies, id))[x]
  {
    forall x <- known {
      FinishOne(dependencies, x, done, id);
    }
  }

  /** The open-record counts and the ranks of the finished activities. */
  ghost predicate Progress(
    known: set<Id>, dependencies: seq<Dependency>, indegree: map<Id, int>, done: set<Id>, rank: map<Id, nat>)
  {
    && indegree.Keys == known
    && done <= known
    && (forall x <- known :: indegree[x] == Waiting(dependencies, x, done))
    && Finished(DependencyEdges(dependencies), done, rank)
  }

  method VisitOne(
    ghost known: set<Id>, ghost dependencies: seq<Dependency>, released: seq<Id>, indegree0: map<Id, int>,
    queue0: seq<Id>, ghost entered0: seq<Id>, ghost done: set<Id>, ghost rank: map<Id, nat>)
    returns (indegree: map<Id, int>, queue: seq<Id>, ghost entered: seq<Id>)
    requires AllKnown(known, dependencies) && queue0 != []
    requires Queued(known, indegree0, done, queue0, entered0)
    requires Progress(known, dependencies, indegree0, done, rank)
    requires released == SuccessorsOf(dependencies, queue0[0])
    ensures var id := queue0[0];
            && id in known - done
            && Queued(known, indegree, done + {id}, queue, entered)
            && Progress(known, dependencies, indegree, done + {id}, rank[id := |done|])
            && Continues(queue0[1..], entered0, queue, entered)
  {
    var id := queue0[0];
    Dequeue(known, indegree0, done, queue0, entered0);
    RankNext(dependencies, id, done, rank);
    FinishAll(known, dependencies, indegree0, done, id);
    SuccessorsKnown(dependencies, known, id);
    indegree, queue, entered := Release(known, indegree0, released, done + {id}, queue0[1..], entered0);
  }

  /** The queue loop: visits activities until none is free. */
  method Drain(
    ghost known: set<Id>, ghost dependencies: seq<Dependency>, successors: map<Id, seq<Id>>,
    indegree0: map<Id, int>, queue0: seq<Id>)
    returns (visited: nat, ghost entered: seq<Id>, ghost rank: map<Id, nat>)
    requires AllKnown(known, dependencies) && Queued(known, indegree0, {}, queue0, queue0)
    requires Progress(known, dependencies, indegree0, {}, map[])
    requires forall x :: Lookup(successors, x) == SuccessorsOf(dependencies, x)
    ensures Distinct(entered) && |entered| == visited && ToSet(entered) <= known && queue0 <= entered
    ensures forall x <- known :: x in entered <==> Waiting(dependencies, x, ToSet(entered)) == 0
    ensures visited == |known| <==> !HasCycle(DependencyEdges(dependencies))
    ensures visited == |known| ==> Topological(DependencyEdges(dependencies), rank)
  {
    var indegree, queue := indegree0, queue0;
    ghost var done: set<Id> := {};
    visited, entered, rank := 0, queue0, map[];
    while queue != []
      invariant Queued(known, indegree, done, queue, entered)
      invariant Progress(known, dependencies, indegree, done, rank) && |done| == visited && queue0 <= entered
      decreases known - done
    {
      var id := queue[0];
      indegree, queue, entered :=
        VisitOne(known, dependencies, Lookup(successors, id), indegree, queue, entered, done, rank);
      visited := visited + 1;
      rank := rank[id := |done|];
      done := done + {id};
    }
    assert ToSet(entered) == done;
    DistinctSize(entered);
    DrainedDecides(known, dependencies, done, rank);
  }

  /** When no activity is free any more, counting the visited ones tells whether there is a cycle. */
  lemma DrainedDecides(known: set<Id>, dependencies: seq<Dependency>, done: set<Id>, rank: map<Id, nat>)
    requires AllKnown(known, dependencies) && done <= known
    requires forall x <- known :: x in done <==> Waiting(dependencies, x, done) == 0
    requires Finished(DependencyEdges(dependencies), done, rank)
    ensures |done| <= |known|
    ensures |done| == |known| <==> !HasCycle(DependencyEdges(dependencies))
    ensures |done| == |known| ==> Topological(DependencyEdges(dependencies), rank)
  {
    SubsetSize(done, known);
    hide Waiting, Finished, Topological, HasCycle, DependencyEdges;
    if |done| == |known| {
      AllDrained(known, dependencies, done, rank);
    } else {
      Blocked(known, dependencies, done);
    }
  }

  lemma AllDrained(known: set<Id>, dependencies: seq<Dependency>, done: set<Id>, rank: map<Id, nat>)
    requires AllKnown(known, dependencies) && done == known && Finished(DependencyEdges(dependencies), done, rank)
    ensures Topological(DependencyEdges(dependencies), rank) && !HasCycle(DependencyEdges(dependencies))
  {
    AllFinishedIsAcyclic(DependencyEdges(dependencies), done, rank);
  }

  /**
   Accepts exactly the workflows whose dependencies only mention activities and have no cycle.
   `entered` lists everything that was ever queued.
   */
  method ValidateDag(activities: seq<Id>, dependencies: seq<Dependency>)
    returns (fault: Option<DagError>, ghost entered: seq<Id>)
    ensures fault.None? <==>
              AllKnown(ToSet(activities), dependencies) && !HasCycle(DependencyEdges(dependencies))
    ensures fault.None? ==> exists rank :: Topological(DependencyEdges(dependencies), rank)
    ensures fault == Some(Cycle) ==> FaultFree(ToSet(activities), dependencies)
    ensures fault.Some? && fault.value != Cycle ==>
              exists i :: 0 <= i < |dependencies| && FaultFree(ToSet(activities), dependencies[..i])
                          && RecordFault(ToSet(activities), dependencies[i]) == fault
    ensures Distinct(entered) && ToSet(entered) <= ToSet(activities)
    ensures fault.None? ==> ToSet(entered) == ToSet(activities)
    ensures fault == Some(Cycle) ==>
              forall x <- activities :: x in entered <==> Waiting(dependencies, x, ToSet(entered)) == 0
  {
    var known := ToSet(activities);
    entered := [];
    var indegree, successors;
    fault, indegree, successors := IndexDependencies(known, dependencies);
    if fault.Some? {
      RejectedRecord(known, dependencies, fault);
      return;
    }
    var queue := InitialQueue(known, indegree);
    ghost var rank;
    var visited;
    visited, entered, rank := Drain(known, dependencies, successors, indegree, queue);
    DistinctSize(entered);
    if visited != |known| {
      fault := Some(Cycle);
    } else {
      SubsetOfSameSize(ToSet(entered), known);
    }
  }

  lemma RejectedRecord(known: set<Id>, dependencies: seq<Dependency>, fault: Option<DagError>)
    requires fault.Some?
    requires exists i :: 0 <= i < |dependencies| && FaultFree(known, dependencies[..i])
                         && RecordFault(known, dependencies[i]) == fault
    ensures !AllKnown(known, dependencies) || HasCycle(DependencyEdges(dependencies))
  {
    var i :| 0 <= i < |dependencies| && FaultFree(known, dependencies[..i])
             && RecordFault(known, dependencies[i]) == fault;
    var d := dependencies[i];
    assert d in dependencies;
    if d.activity == d.dependsOn {
      assert (d.dependsOn, d.activity) in DependencyEdges(dependencies);
      assert Hop(DependencyEdges(dependencies), [d.activity, d.activity], 1);
      assert IsCycle(DependencyEdges(dependencies), [d.activity, d.activity]);
    }
  }

  /** Activities that never became free wait for each other. */
  lemma Blocked(known: set<Id>, dependencies: seq<Dependency>, done: set<Id>)
    requires AllKnown(known, dependencies) && exists x :: x in known && x !in done
    requires forall x <- known :: x in done <==> Waiting(dependencies, x, done) == 0
    ensures HasCycle(DependencyEdges(dependencies))
  {
    var edges := DependencyEdges(dependencies);
    forall x <- known | x !in done ensures HeldBack(edges, known, done, x) {
      NothingWaiting(dependencies, x, done);
      var d :| d in dependencies && d.activity == x && d.dependsOn !in done;
      assert (d.dependsOn, x) in edges;
    }
    NothingLeftMayFinish(edges, known, done);
  }
}
