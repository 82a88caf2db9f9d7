/**
 Plan assignments and resource lanes.  Activities assigned to the same resource, core
 and slot share a lane and run in the order of their `order` field.
 */
module Lanes {
  import opened Graphs
  import opened Outcomes

  datatype Lane = Lane(resource: Id, core: Id, slot: Id)

  datatype Assignment = Assignment(
    activity: Id,
    lane: Lane,
    order: int,
    predictedStart: real,
    predictedFinish: real,
    selectorOverride: bool,
    bootOverhead: Option<real>,
    containerOverhead: Option<real>
  )

  /** What a map of assignments yields for an activity it does not hold. */
  const UNASSIGNED := Assignment("", Lane("", "", ""), 0, 0.0, 0.0, false, None, None)

  /** The assignment that counts for an activity: the last one recorded. */
  function AssignmentOf(assignments: seq<Assignment>, activity: Id): Assignment {
    if assignments == [] then UNASSIGNED
    else if assignments[|assignments| - 1].activity == activity then assignments[|assignments| - 1]
    else AssignmentOf(assignments[..|assignments| - 1], activity)
  }

  function Assigned(index: map<Id, Assignment>, activity: Id): Assignment {
    if activity in index then index[activity] else UNASSIGNED
  }

  ghost predicate Assigns(assignments: seq<Assignment>, activity: Id) {
    exists a <- assignments :: a.activity == activity
  }

  method IndexAssignments(assignments: seq<Assignment>) returns (index: map<Id, Assignment>)
    ensures forall x :: Assigned(index, x) == AssignmentOf(assignments, x)
    ensures forall x :: x in index <==> Assigns(assignments, x)
  {
    index := map[];
    for i := 0 to |assignments|
      invariant forall x :: Assigned(index, x) == AssignmentOf(assignments[..i], x)
      invariant forall x :: x in index <==> Assigns(assignments[..i], x)
    {
      assert assignments[..i + 1][..i] == assignments[..i];
      assert assignments[..i + 1] == assignments[..i] + [assignments[i]];
      index := index[assignments[i].activity := assignments[i]];
    }
    assert assignments[..|assignments|] == assignments;
  }

  /** Every activity has at most one assignment. */
  ghost predicate AssignedOnce(assignments: seq<Assignment>) {
    forall i, j :: 0 <= i < j < |assignments| ==> assignments[i].activity != assignments[j].activity
  }

  lemma AssignedOnceSnoc(assignments: seq<Assignment>, i: nat)
    requires i < |assignments| && AssignedOnce(assignments[..i])
    ensures AssignedOnce(assignments[..i + 1]) <==>
              forall a <- assignments[..i] :: a.activity != assignments[i].activity
  {
  }

  lemma AssignedOncePrefix(assignments: seq<Assignment>, i: nat)
    requires i <= |assignments| && AssignedOnce(assignments)
    ensures AssignedOnce(assignments[..i])
  {
  }

  lemma {:induction false} AssignmentOfMember(assignments: seq<Assignment>, a: Assignment)
    requires AssignedOnce(assignments) && a in assignments
    ensures AssignmentOf(assignments, a.activity) == a
  {
    var n := |assignments| - 1;
    if a != assignments[n] {
      AssignmentOfMember(assignments[..n], a);
    }
  }

  /** The assignments of one lane, in plan order. */
  function Members(assignments: seq<Assignment>, lane: Lane): seq<Assignment> {
    if assignments == [] then [] else
      var last := assignments[|assignments| - 1];
      Members(assignments[..|assignments| - 1], lane) + (if last.lane == lane then [last] else [])
  }

  function Grouped(byLane: map<Lane, seq<Assignment>>, lane: Lane): seq<Assignment> {
    if lane in byLane then byLane[lane] else []
  }

  function WithMember(byLane: map<Lane, seq<Assignment>>, a: Assignment): (r: map<Lane, seq<Assignment>>)
    ensures r.Keys == byLane.Keys + {a.lane}
    ensures forall lane :: Grouped(r, lane) == Grouped(byLane, lane) + (if a.lane == lane then [a] else [])
  {
    byLane[a.lane := Grouped(byLane, a.lane) + [a]]
  }

  lemma MembersSnoc(assignments: seq<Assignment>, i: nat)
    requires i < |assignments|
    ensures forall lane {:trigger Members(assignments[..i + 1], lane)} ::
              Members(assignments[..i + 1], lane)
              == Members(assignments[..i], lane) + (if assignments[i].lane == lane then [assignments[i]] else [])
  {
    assert assignments[..i + 1][..i] == assignments[..i];
  }

  ghost predicate HasLane(assignments: seq<Assignment>, lane: Lane) {
    exists a <- assignments :: a.lane == lane
  }

  method GroupByLane(assignments: seq<Assignment>) returns (byLane: map<Lane, seq<Assignment>>)
    ensures forall lane :: lane in byLane <==> HasLane(assignments, lane)
    ensures forall lane :: Grouped(byLane, lane) == Members(assignments, lane)
  {
    byLane := map[];
    for i := 0 to |assignments|
      invariant forall lane :: lane in byLane <==> HasLane(assignments[..i], lane)
      invariant forall lane :: Grouped(byLane, lane) == Members(assignments[..i], lane)
    {
      MembersSnoc(assignments, i);
      assert assignments[..i + 1] == assignments[..i] + [assignments[i]];
      byLane := WithMember(byLane, assignments[i]);
    }
    assert assignments[..|assignments|] == assignments;
  }

  predicate Sorted(s: seq<Assignment>) {
    s == [] ||
    (Sorted(s[..|s| - 1]) && forall y <- s[..|s| - 1] :: y.order <= s[|s| - 1].order)
  }

  predicate DistinctOrders(s: seq<Assignment>) {
    s == [] ||
    (DistinctOrders(s[..|s| - 1]) && forall y <- s[..|s| - 1] :: y.order != s[|s| - 1].order)
  }

  lemma Elements(s: seq<Assignment>, t: multiset<Assignment>)
    requires multiset(s) == t
    ensures forall x :: x in s <==> x in t
  {
  }

  function Insert(s: seq<Assignment>, x: Assignment): (t: seq<Assignment>)
    ensures multiset(t) == multiset(s) + multiset{x}
  {
    if s == [] || s[|s| - 1].order <= x.order then
      s + [x]
    else
      assert s == s[..|s| - 1] + [s[|s| - 1]];
      Insert(s[..|s| - 1], x) + [s[|s| - 1]]
  }

  lemma InsertSorted(s: seq<Assignment>, x: Assignment)
    requires Sorted(s)
    ensures Sorted(Insert(s, x))
  {
    if s == [] || s[|s| - 1].order <= x.order {
      assert (s + [x])[..|s|] == s;
    } else {
      var init, last := s[..|s| - 1], s[|s| - 1];
      var u := Insert(init, x);
      InsertSorted(init, x);
      assert (u + [last])[..|u|] == u;
      forall y <- u ensures y.order <= last.order {
        assert y in multiset(u);
      }
    }
  }

  function OrderSet(s: seq<Assignment>): set<int> {
    set y <- s :: y.order
  }

  /** Orders are distinct exactly when there are as many of them as assignments. */
  lemma {:induction false} DistinctByCount(s: seq<Assignment>)
    ensures |OrderSet(s)| <= |s|
    ensures DistinctOrders(s) <==> |OrderSet(s)| == |s|
  {
    if s != [] {
      var init, last := s[..|s| - 1], s[|s| - 1];
      DistinctByCount(init);
      assert s == init + [last];
      assert OrderSet(s) == OrderSet(init) + {last.order};
      assert last.order in OrderSet(init) ==> OrderSet(s) == OrderSet(init);
    }
  }

  lemma PermutationKeepsDistinct(s: seq<Assignment>, t: seq<Assignment>)
    requires multiset(s) == multiset(t)
    ensures DistinctOrders(s) <==> DistinctOrders(t)
  {
    DistinctByCount(s);
    DistinctByCount(t);
    Elements(s, multiset(t));
    Elements(t, multiset(t));
    assert OrderSet(s) == OrderSet(t);
    assert |s| == |multiset(s)| == |t|;
  }

  /** Any sort by order; the position of equal orders is unspecified in the program as well. */
  method SortByOrder(items: seq<Assignment>) returns (sorted: seq<Assignment>)
    ensures multiset(sorted) == multiset(items)
    ensures Sorted(sorted)
    ensures DistinctOrders(sorted) <==> DistinctOrders(items)
  {
    sorted := [];
    for n := 0 to |items|
      invariant multiset(sorted) == multiset(items[..n])
      invariant Sorted(sorted)
    {
      assert items[..n + 1] == items[..n] + [items[n]];
      InsertSorted(sorted, items[n]);
      sorted := Insert(sorted, items[n]);
    }
    assert items[..|items|] == items;
    PermutationKeepsDistinct(sorted, items);
  }

  /** Neighbours of a sorted lane, and what lies between them. */
  lemma {:induction false} SortedPairs(s: seq<Assignment>, i: nat, j: nat)
    requires Sorted(s) && i < j < |s|
    ensures s[i].order <= s[j].order
    ensures DistinctOrders(s) ==> s[i].order < s[j].order
  {
    var n := |s| - 1;
    if j < n {
      SortedPairs(s[..n], i, j);
    } else {
      assert s[i] in s[..n];
    }
  }

  /** In a sorted lane, an element that differs from its neighbour differs from everything before. */
  lemma NeighboursDecide(s: seq<Assignment>, i: nat)
    requires Sorted(s) && 0 < i < |s| && DistinctOrders(s[..i]) && s[i - 1].order != s[i].order
    ensures DistinctOrders(s[..i + 1])
  {
    assert s[..i + 1][..i] == s[..i];
    forall y <- s[..i] ensures y.order != s[i].order {
      var k :| 0 <= k < i && s[..i][k] == y;
      if k < i - 1 {
        SortedPairs(s, k, i - 1);
      }
      SortedPairs(s, i - 1, i);
    }
  }

  lemma {:induction false} MembersAre(assignments: seq<Assignment>, lane: Lane)
    ensures forall x :: x in Members(assignments, lane) <==> x in assignments && x.lane == lane
  {
    if assignments != [] {
      MembersAre(assignments[..|assignments| - 1], lane);
      assert assignments == assignments[..|assignments| - 1] + [assignments[|assignments| - 1]];
    }
  }

  /** No lane holds two assignments with the same order. */
  ghost predicate LanesOrdered(assignments: seq<Assignment>) {
    forall i, j :: 0 <= i < j < |assignments| && assignments[i].lane == assignments[j].lane ==>
      assignments[i].order != assignments[j].order
  }

  lemma SamePlace(assignments: seq<Assignment>, a: Assignment, b: Assignment)
    requires LanesOrdered(assignments) && a in assignments && b in assignments
    requires a.lane == b.lane && a.order == b.order
    ensures a == b
  {
  }

  lemma {:induction false} OrderedLaneIsDistinct(assignments: seq<Assignment>, lane: Lane)
    requires LanesOrdered(assignments)
    ensures DistinctOrders(Members(assignments, lane))
  {
    if assignments != [] {
      var n := |assignments| - 1;
      var init, last := assignments[..n], assignments[n];
      OrderedLaneIsDistinct(init, lane);
      MembersAre(init, lane);
      if last.lane == lane {
        assert (Members(init, lane) + [last])[..|Members(init, lane)|] == Members(init, lane);
      } else {
        assert Members(assignments, lane) == Members(init, lane);
      }
    }
  }

  lemma {:induction false} ClashingLaneIsNotDistinct(assignments: seq<Assignment>, i: nat, j: nat)
    requires i < j < |assignments| && assignments[i].lane == assignments[j].lane
    requires assignments[i].order == assignments[j].order
    ensures !DistinctOrders(Members(assignments, assignments[i].lane))
  {
    var n, lane := |assignments| - 1, assignments[i].lane;
    var init, last := assignments[..n], assignments[n];
    var members := Members(init, lane);
    assert Members(assignments, lane) == if last.lane == lane then members + [last] else members + [];
    DistinctOrdersSnoc(members, last);
    hide DistinctOrders;
    if j < n {
      ClashingLaneIsNotDistinct(init, i, j);
    } else {
      MembersAre(init, lane);
      assert init[i] in members;
    }
  }

  lemma DistinctOrdersSnoc(s: seq<Assignment>, x: Assignment)
    ensures DistinctOrders(s + [x]) <==> DistinctOrders(s) && forall y <- s :: y.order != x.order
    ensures s + [] == s
  {
    assert (s + [x])[..|s|] == s;
  }
}
