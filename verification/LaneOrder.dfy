/** Which activity runs immediately before which on the same lane. */
module LaneOrder {
  import opened Graphs
  import opened Lanes

  /** `p` is the last assignment before `a` on their common lane. */
  ghost predicate JustBefore(assignments: seq<Assignment>, p: Assignment, a: Assignment) {
    && p in assignments
    && p.lane == a.lane
    && p.order < a.order
    && forall x <- assignments :: x.lane == a.lane ==> x.order <= p.order || a.order <= x.order
  }

  ghost predicate First(assignments: seq<Assignment>, a: Assignment) {
    forall x <- assignments :: x.lane == a.lane ==> a.order <= x.order
  }

  ghost predicate Placed(assignments: seq<Assignment>, previous: map<Id, Id>, a: Assignment) {
    if a.activity in previous
    then exists p :: JustBefore(assignments, p, a) && p.activity == previous[a.activity]
    else First(assignments, a)
  }

  /** `previous` holds exactly the lane predecessors. */
  ghost predicate LanePrevious(assignments: seq<Assignment>, previous: map<Id, Id>) {
    && (forall a <- assignments :: Placed(assignments, previous, a))
    && (forall id <- previous :: exists a <- assignments :: a.activity == id)
  }

  function LaneEdges(previous: map<Id, Id>): Edges {
    set id <- previous :: (previous[id], id)
  }

  /** The assignments of one lane, in running order. */
  ghost predicate SortedLane(assignments: seq<Assignment>, lane: Lane, sorted: seq<Assignment>) {
    && (forall x :: x in sorted <==> x in assignments && x.lane == lane)
    && Sorted(sorted)
    && DistinctOrders(sorted)
  }

  /** The assignments of one lane, sorted by order in any way. */
  ghost predicate LaneList(assignments: seq<Assignment>, lane: Lane, sorted: seq<Assignment>) {
    Sorted(sorted) && multiset(sorted) == multiset(Members(assignments, lane))
  }

  /** With distinct orders there is one way to sort a lane. */
  lemma OrderedLaneList(assignments: seq<Assignment>, lane: Lane, sorted: seq<Assignment>)
    requires LanesOrdered(assignments) && LaneList(assignments, lane, sorted)
    ensures SortedLane(assignments, lane, sorted)
  {
    var items := Members(assignments, lane);
    OrderedLaneIsDistinct(assignments, lane);
    PermutationKeepsDistinct(sorted, items);
    MembersAre(assignments, lane);
    Elements(sorted, multiset(items));
    Elements(items, multiset(items));
  }

  lemma NeighbourIsJustBefore(assignments: seq<Assignment>, lane: Lane, sorted: seq<Assignment>, i: nat)
    requires SortedLane(assignments, lane, sorted) && i < |sorted|
    ensures i == 0 ==> First(assignments, sorted[i])
    ensures i > 0 ==> JustBefore(assignments, sorted[i - 1], sorted[i])
  {
    assert sorted[i] in sorted;
    forall x <- assignments | x.lane == lane
      ensures sorted[i].order <= x.order || (i > 0 && x.order <= sorted[i - 1].order)
    {
      assert x in sorted;
      var k :| 0 <= k < |sorted| && sorted[k] == x;
      if k > i {
        SortedPairs(sorted, i, k);
      } else if k < i - 1 {
        SortedPairs(sorted, k, i - 1);
      }
    }
    if i > 0 {
      assert sorted[i - 1] in sorted;
      SortedPairs(sorted, i - 1, i);
    }
  }

  lemma OneActivityOneAssignment(assignments: seq<Assignment>, a: Assignment, b: Assignment)
    requires AssignedOnce(assignments) && a in assignments && b in assignments && a.activity == b.activity
    ensures a == b
  {
  }

  /** The wait between lane neighbours is among the lane edges. */
  lemma NeighbourEdge(assignments: seq<Assignment>, previous: map<Id, Id>, p: Assignment, a: Assignment)
    requires LanesOrdered(assignments) && LanePrevious(assignments, previous)
    requires a in assignments && JustBefore(assignments, p, a)
    ensures (p.activity, a.activity) in LaneEdges(previous)
  {
    assert Placed(assignments, previous, a);
    var q :| JustBefore(assignments, q, a) && q.activity == previous[a.activity];
    SamePlace(assignments, p, q);
  }

  /** Every element of a lane but the first, mapped to its left neighbour. */
  function NeighbourLinks(s: seq<Assignment>): map<Id, Id> {
    if |s| < 2 then map[]
    else NeighbourLinks(s[..|s| - 1])[s[|s| - 1].activity := s[|s| - 2].activity]
  }

  lemma {:induction false} LinkKeys(s: seq<Assignment>, id: Id)
    requires id in NeighbourLinks(s)
    ensures exists a <- s :: a.activity == id
  {
    var n := |s| - 1;
    if id == s[n].activity {
      assert s[n] in s;
    } else {
      LinkKeys(s[..n], id);
    }
  }

  lemma {:induction false} LinkOf(assignments: seq<Assignment>, s: seq<Assignment>, k: nat)
    requires AssignedOnce(assignments) && Sorted(s) && DistinctOrders(s)
    requires (forall x <- s :: x in assignments) && k < |s|
    ensures s[k].activity in NeighbourLinks(s) <==> k > 0
    ensures k > 0 ==> NeighbourLinks(s)[s[k].activity] == s[k - 1].activity
  {
    var n := |s| - 1;
    if k < n {
      LinkOf(assignments, s[..n], k);
      SortedPairs(s, k, n);
      assert s[k] in s && s[n] in s;
      if s[k].activity == s[n].activity {
        OneActivityOneAssignment(assignments, s[k], s[n]);
      }
    }
  }

  /** Links the neighbours of one lane. */
  method LinkLane(assignments: seq<Assignment>, lane: Lane, items: seq<Assignment>, previous0: map<Id, Id>)
    returns (previous: map<Id, Id>, ghost sorted: seq<Assignment>)
    requires items == Members(assignments, lane)
    ensures LaneList(assignments, lane, sorted) && previous == previous0 + NeighbourLinks(sorted)
  {
    var lane' := SortByOrder(items);
    assert LaneList(assignments, lane, lane');
    hide *;
    previous, sorted := previous0, lane';
    LinkFew(lane', previous0);
    if lane' != [] {
      for i := 1 to |lane'|
        invariant previous == previous0 + NeighbourLinks(lane'[..i])
      {
        LinkNext(lane', i, previous0);
        previous := previous[lane'[i].activity := lane'[i - 1].activity];
      }
      assert lane'[..|lane'|] == lane';
    }
  }

  lemma LinkFew(s: seq<Assignment>, previous: map<Id, Id>)
    ensures |s| == 0 ==> previous + NeighbourLinks(s) == previous
    ensures |s| > 0 ==> previous + NeighbourLinks(s[..1]) == previous
  {
  }

  lemma LinkNext(s: seq<Assignment>, i: nat, previous: map<Id, Id>)
    requires 0 < i < |s|
    ensures previous + NeighbourLinks(s[..i + 1])
         == (previous + NeighbourLinks(s[..i]))[s[i].activity := s[i - 1].activity]
  {
    assert s[..i + 1][..i] == s[..i];
  }

  lemma LanePlaced(
    assignments: seq<Assignment>, lane: Lane, sorted: seq<Assignment>, previous: map<Id, Id>, a: Assignment)
    requires AssignedOnce(assignments) && SortedLane(assignments, lane, sorted) && a in assignments
    requires a.lane == lane ==> a.activity !in previous
    requires a.lane != lane ==> Placed(assignments, previous, a)
    ensures Placed(assignments, previous + NeighbourLinks(sorted), a)
  {
    if a.lane == lane {
      assert a in sorted;
      var k :| 0 <= k < |sorted| && sorted[k] == a;
      LinkOf(assignments, sorted, k);
      NeighbourIsJustBefore(assignments, lane, sorted, k);
    } else {
      NotLinked(assignments, lane, sorted, a);
    }
  }

  lemma NotLinked(assignments: seq<Assignment>, lane: Lane, sorted: seq<Assignment>, a: Assignment)
    requires AssignedOnce(assignments) && SortedLane(assignments, lane, sorted) && a in assignments && a.lane != lane
    ensures a.activity !in NeighbourLinks(sorted)
  {
    if a.activity in NeighbourLinks(sorted) {
      LinkKeys(sorted, a.activity);
      var b :| b in sorted && b.activity == a.activity;
      OneActivityOneAssignment(assignments, a, b);
    }
  }

  /** After lanes outside `todo` have been linked. */
  ghost predicate Linked(assignments: seq<Assignment>, previous: map<Id, Id>, todo: set<Lane>) {
    && (forall a <- assignments :: a.lane !in todo ==> Placed(assignments, previous, a))
    && (forall a <- assignments :: a.lane in todo ==> a.activity !in previous)
    && (forall id <- previous :: exists a <- assignments :: a.activity == id)
  }

  lemma LinkOne(
    assignments: seq<Assignment>, lane: Lane, sorted: seq<Assignment>, previous: map<Id, Id>, todo: set<Lane>)
    requires AssignedOnce(assignments) && SortedLane(assignments, lane, sorted)
    requires Linked(assignments, previous, todo) && lane in todo
    ensures Linked(assignments, previous + NeighbourLinks(sorted), todo - {lane})
  {
    var after := previous + NeighbourLinks(sorted);
    forall a <- assignments ensures a.lane !in todo - {lane} ==> Placed(assignments, after, a) {
      if a.lane !in todo - {lane} {
        LanePlaced(assignments, lane, sorted, previous, a);
      }
    }
    forall a <- assignments | a.lane in todo - {lane} ensures a.activity !in after {
      NotLinked(assignments, lane, sorted, a);
    }
    forall id <- after ensures exists a <- assignments :: a.activity == id {
      if id in NeighbourLinks(sorted) {
        LinkKeys(sorted, id);
      }
    }
  }

  /** The links of several lanes; of an activity on two lanes the later lane counts. */
  function LinksOf(lists: seq<seq<Assignment>>): map<Id, Id> {
    if lists == [] then map[] else LinksOf(lists[..|lists| - 1]) + NeighbourLinks(lists[|lists| - 1])
  }

  /** `previous` comes from sorting each of `lanes` once, in this order. */
  ghost predicate LinksLanes(
    assignments: seq<Assignment>, lanes: seq<Lane>, lists: seq<seq<Assignment>>, previous: map<Id, Id>)
  {
    && |lanes| == |lists|
    && (forall i :: 0 <= i < |lanes| ==> lanes[i] !in lanes[..i] && LaneList(assignments, lanes[i], lists[i]))
    && previous == LinksOf(lists)
  }

  lemma LinksOneMore(assignments: seq<Assignment>, lanes: seq<Lane>, lists: seq<seq<Assignment>>, previous: map<Id, Id>,
                     lane: Lane, sorted: seq<Assignment>)
    requires LinksLanes(assignments, lanes, lists, previous)
    requires lane !in lanes && LaneList(assignments, lane, sorted)
    ensures LinksLanes(assignments, lanes + [lane], lists + [sorted], previous + NeighbourLinks(sorted))
  {
    hide LaneList, NeighbourLinks;
    var more := lanes + [lane];
    assert (lists + [sorted])[..|lists|] == lists;
    forall i | 0 <= i < |more| ensures more[i] !in more[..i] && LaneList(assignments, more[i], (lists + [sorted])[i]) {
      assert more[..i] == lanes[..i];
      assert i == |lanes| ==> lanes[..i] == lanes;
    }
  }

  /** The lanes of the assignments that are not among `done`. */
  ghost function LanesLeft(assignments: seq<Assignment>, done: seq<Lane>): set<Lane> {
    set a <- assignments | a.lane !in done :: a.lane
  }

  lemma {:induction false} PrefixIsLinked(
    assignments: seq<Assignment>, lanes: seq<Lane>, lists: seq<seq<Assignment>>, previous: map<Id, Id>, n: nat)
    requires AssignedOnce(assignments) && LanesOrdered(assignments) && LinksLanes(assignments, lanes, lists, previous)
    requires (forall lane <- lanes :: HasLane(assignments, lane)) && n <= |lanes| == |lists|
    ensures Linked(assignments, LinksOf(lists[..n]), LanesLeft(assignments, lanes[..n]))
  {
    hide *;
    if n == 0 {
      NothingLinked(assignments, lanes, lists);
    } else {
      PrefixIsLinked(assignments, lanes, lists, previous, n - 1);
      LaneLeaves(assignments, lanes, lists, previous, n);
      OrderedLaneList(assignments, lanes[n - 1], lists[n - 1]);
      LinkOne(assignments, lanes[n - 1], lists[n - 1], LinksOf(lists[..n - 1]), LanesLeft(assignments, lanes[..n - 1]));
    }
  }

  lemma NothingLinked(assignments: seq<Assignment>, lanes: seq<Lane>, lists: seq<seq<Assignment>>)
    ensures Linked(assignments, LinksOf(lists[..0]), LanesLeft(assignments, lanes[..0]))
  {
  }

  lemma LaneLeaves(
    assignments: seq<Assignment>, lanes: seq<Lane>, lists: seq<seq<Assignment>>, previous: map<Id, Id>, n: nat)
    requires LinksLanes(assignments, lanes, lists, previous) && 0 < n <= |lanes|
    requires forall lane <- lanes :: HasLane(assignments, lane)
    ensures |lists| == |lanes| && LaneList(assignments, lanes[n - 1], lists[n - 1])
    ensures lanes[n - 1] in LanesLeft(assignments, lanes[..n - 1])
    ensures LanesLeft(assignments, lanes[..n]) == LanesLeft(assignments, lanes[..n - 1]) - {lanes[n - 1]}
    ensures LinksOf(lists[..n]) == LinksOf(lists[..n - 1]) + NeighbourLinks(lists[n - 1])
  {
    hide LaneList, NeighbourLinks;
    assert lists[..n][..n - 1] == lists[..n - 1];
    assert lanes[..n] == lanes[..n - 1] + [lanes[n - 1]];
    assert lanes[n - 1] in lanes && HasLane(assignments, lanes[n - 1]);
  }

  /** When activities are assigned once and orders are distinct, the links are exactly the lane predecessors. */
  lemma TidyLinks(assignments: seq<Assignment>, lanes: seq<Lane>, lists: seq<seq<Assignment>>, previous: map<Id, Id>)
    requires AssignedOnce(assignments) && LanesOrdered(assignments) && LinksLanes(assignments, lanes, lists, previous)
    requires forall lane :: lane in lanes <==> HasLane(assignments, lane)
    ensures LanePrevious(assignments, previous)
  {
    PrefixIsLinked(assignments, lanes, lists, previous, |lanes|);
    assert lists[..|lanes|] == lists && lanes[..|lanes|] == lanes;
    assert LanesLeft(assignments, lanes) == {} by {
      forall a <- assignments ensures a.lane in lanes {
        assert HasLane(assignments, a.lane);
      }
    }
  }

  /**
   The activity before each one on its lane: whatever the assignments are, the links are those of
   each lane sorted by order.
   */
  method IndexLanes(assignments: seq<Assignment>)
    returns (previous: map<Id, Id>, ghost lanes: seq<Lane>, ghost lists: seq<seq<Assignment>>)
    ensures LinksLanes(assignments, lanes, lists, previous)
    ensures forall lane :: lane in lanes <==> HasLane(assignments, lane)
    ensures AssignedOnce(assignments) && LanesOrdered(assignments) ==> LanePrevious(assignments, previous)
  {
    var byLane := GroupByLane(assignments);
    previous, lanes, lists := map[], [], [];
    assert LinksLanes(assignments, lanes, lists, previous);
    hide *;
    var todo := byLane.Keys;
    while todo != {}
      invariant todo <= byLane.Keys && (forall lane :: lane in lanes <==> lane in byLane && lane !in todo)
      invariant LinksLanes(assignments, lanes, lists, previous)
    {
      var lane :| lane in todo;
      GroupedAt(byLane, lane);
      ghost var before, sorted := previous, [];
      previous, sorted := LinkLane(assignments, lane, byLane[lane], previous);
      LinksOneMore(assignments, lanes, lists, before, lane, sorted);
      lanes, lists := lanes + [lane], lists + [sorted];
      todo := todo - {lane};
    }
    if AssignedOnce(assignments) && LanesOrdered(assignments) {
      TidyLinks(assignments, lanes, lists, previous);
    }
  }

  lemma GroupedAt(byLane: map<Lane, seq<Assignment>>, lane: Lane)
    requires lane in byLane
    ensures Grouped(byLane, lane) == byLane[lane]
  {
  }

  lemma SameNeighbour(assignments: seq<Assignment>, p: map<Id, Id>, q: map<Id, Id>, a: Assignment)
    requires AssignedOnce(assignments) && LanesOrdered(assignments) && a in assignments
    requires Placed(assignments, p, a) && Placed(assignments, q, a)
    ensures a.activity in p <==> a.activity in q
    ensures a.activity in p ==> p[a.activity] == q[a.activity]
  {
    if a.activity in p && a.activity in q {
      var x :| JustBefore(assignments, x, a) && x.activity == p[a.activity];
      var y :| JustBefore(assignments, y, a) && y.activity == q[a.activity];
      SamePlace(assignments, x, y);
    }
  }

  /** Validated assignments determine the lane predecessors. */
  lemma LanePreviousIsUnique(assignments: seq<Assignment>, p: map<Id, Id>, q: map<Id, Id>)
    requires AssignedOnce(assignments) && LanesOrdered(assignments)
    requires LanePrevious(assignments, p) && LanePrevious(assignments, q)
    ensures p == q
  {
    hide *;
    forall id | id in p || id in q ensures id in p && id in q && p[id] == q[id] {
      SameEntry(assignments, p, q, id);
    }
    assert p.Keys == q.Keys;
  }

  lemma SameEntry(assignments: seq<Assignment>, p: map<Id, Id>, q: map<Id, Id>, id: Id)
    requires AssignedOnce(assignments) && LanesOrdered(assignments)
    requires LanePrevious(assignments, p) && LanePrevious(assignments, q)
    ensures id in p <==> id in q
    ensures id in p ==> p[id] == q[id]
  {
    hide Placed, AssignedOnce, LanesOrdered;
    if id in p || id in q {
      var a :| a in assignments && a.activity == id;
      SameNeighbour(assignments, p, q, a);
    }
  }
}
