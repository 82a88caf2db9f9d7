/**
 Finite directed graphs of waits.  An edge `(a, b)` says that `b` waits for `a`.
 Every scheduler of the program (plan validator, simulator, runner, supervisor)
 can only make progress on graphs without cycles; this module fixes what that means.
 */
module Graphs {

  /** Identifiers are opaque; only their equality (and, where lists are sorted, their order) is used. */
  type Id = string

  type Edges = set<(Id, Id)>

  function ToSet(s: seq<Id>): set<Id> {
    set x | x in s
  }

  /** No identifier occurs twice. */
  predicate Distinct(s: seq<Id>) {
    forall i :: 0 <= i < |s| ==> s[i] !in s[..i]
  }

  lemma DistinctSnoc(s: seq<Id>, x: Id)
    ensures Distinct(s + [x]) <==> Distinct(s) && x !in s
  {
    var t := s + [x];
    assert t[..|s|] == s;
    forall i | 0 <= i < |s| ensures t[..i] == s[..i] && t[i] == s[i] {
    }
    if Distinct(t) {
      assert t[|s|] !in t[..|s|];
      forall i | 0 <= i < |s| ensures s[i] !in s[..i] {
        assert t[i] !in t[..i];
      }
    }
  }

  lemma {:induction false} DistinctSize(s: seq<Id>)
    requires Distinct(s)
    ensures |ToSet(s)| == |s|
  {
    if s != [] {
      var n := |s| - 1;
      assert s == s[..n] + [s[n]];
      DistinctSnoc(s[..n], s[n]);
      DistinctSize(s[..n]);
      assert ToSet(s) == ToSet(s[..n]) + {s[n]};
    }
  }

  /** Without repetition a list is as long as its set, and only then. */
  lemma {:induction false} SizeMeansDistinct(s: seq<Id>)
    ensures |ToSet(s)| <= |s|
    ensures |ToSet(s)| == |s| ==> Distinct(s)
  {
    if s != [] {
      var n := |s| - 1;
      assert s == s[..n] + [s[n]];
      SizeMeansDistinct(s[..n]);
      assert ToSet(s) == ToSet(s[..n]) + {s[n]};
      DistinctSnoc(s[..n], s[n]);
      assert s[n] in s[..n] ==> ToSet(s) == ToSet(s[..n]);
    }
  }

  lemma SubsetSize(a: set<Id>, b: set<Id>)
    requires a <= b
    ensures |a| <= |b| && (|a| == |b| <==> a == b)
    ensures a != b ==> exists x :: x in b && x !in a
  {
    assert b == a + (b - a);
    assert |b| == |a| + |b - a|;
  }

  lemma SubsetOfSameSize(a: set<Id>, b: set<Id>)
    requires a <= b && |a| >= |b|
    ensures a == b
  {
    assert b == a + (b - a);
    assert |b| == |a| + |b - a|;
  }

  ghost predicate Hop(edges: Edges, p: seq<Id>, i: int)
    requires 0 < i < |p|
  {
    (p[i - 1], p[i]) in edges
  }

  ghost predicate Walk(edges: Edges, p: seq<Id>) {
    forall i :: 0 < i < |p| ==> Hop(edges, p, i)
  }

  /** A cycle is a closed walk along at least one edge. */
  ghost predicate IsCycle(edges: Edges, c: seq<Id>) {
    |c| >= 2 && c[0] == c[|c| - 1] && Walk(edges, c)
  }

  ghost predicate HasCycle(edges: Edges) {
    exists c :: IsCycle(edges, c)
  }

  /** The edges between members of `ids`. */
  function Among(edges: Edges, ids: set<Id>): Edges {
    set e <- edges | e.0 in ids && e.1 in ids
  }

  /** `rank` orders all nodes it covers strictly along every edge. */
  ghost predicate Topological(edges: Edges, rank: map<Id, nat>) {
    forall e <- edges :: e.0 in rank && e.1 in rank && rank[e.0] < rank[e.1]
  }

  /** `done` is closed under predecessors, and `rank` numbers it in an order that respects the edges. */
  ghost predicate Finished(edges: Edges, done: set<Id>, rank: map<Id, nat>) {
    && rank.Keys == done
    && (forall x <- done :: rank[x] < |done|)
    && (forall e <- edges :: e.1 in done ==> e.0 in done && rank[e.0] < rank[e.1])
  }

  /** A node may finish when everything it waits for has. */
  lemma FinishNext(edges: Edges, done: set<Id>, rank: map<Id, nat>, x: Id)
    requires Finished(edges, done, rank) && x !in done
    requires forall e <- edges :: e.1 == x ==> e.0 in done
    ensures Finished(edges, done + {x}, rank[x := |done|])
  {
  }

  /** When everything that waits has finished, there is no cycle. */
  lemma AllFinishedIsAcyclic(edges: Edges, done: set<Id>, rank: map<Id, nat>)
    requires Finished(edges, done, rank) && forall e <- edges :: e.1 in done
    ensures Topological(edges, rank) && !HasCycle(edges)
  {
    RankedIsAcyclic(edges, rank);
  }

  lemma FinishedAmong(edges: Edges, done: set<Id>, rank: map<Id, nat>, ids: set<Id>)
    requires Finished(edges, done, rank)
    ensures Finished(Among(edges, ids), done, rank)
  {
  }

  /** `x` waits for a node that has not finished. */
  ghost predicate HeldBack(edges: Edges, nodes: set<Id>, done: set<Id>, x: Id) {
    exists e <- edges :: e.1 == x && e.0 in nodes && e.0 !in done
  }

  /** When nothing that is left may finish, there is a cycle. */
  lemma NothingLeftMayFinish(edges: Edges, nodes: set<Id>, done: set<Id>)
    requires exists x :: x in nodes && x !in done
    requires forall x {:trigger HeldBack(edges, nodes, done, x)} ::
               x in nodes && x !in done ==> HeldBack(edges, nodes, done, x)
    ensures HasCycle(edges)
  {
    var rest := nodes - done;
    forall x <- rest ensures WaitsIn(edges, rest, x) {
      assert HeldBack(edges, nodes, done, x);
      var e :| e in edges && e.1 == x && e.0 in nodes && e.0 !in done;
      assert e == (e.0, x);
    }
    var y :| y in nodes && y !in done;
    assert y in rest;
    StuckHasCycle(edges, rest);
  }

  /** Every member of `s` waits for another member of `s`. */
  ghost predicate Stuck(edges: Edges, s: set<Id>) {
    s != {} && forall x {:trigger WaitsIn(edges, s, x)} :: x in s ==> WaitsIn(edges, s, x)
  }

  ghost predicate WaitsIn(edges: Edges, s: set<Id>, x: Id) {
    exists y <- s :: (y, x) in edges
  }

  lemma {:induction false} RankGrowsAlongWalk(edges: Edges, rank: map<Id, nat>, p: seq<Id>, n: nat)
    requires Topological(edges, rank) && Walk(edges, p) && 0 < n < |p|
    ensures p[0] in rank && p[n] in rank && rank[p[0]] < rank[p[n]]
  {
    assert Hop(edges, p, n);
    if n > 1 {
      RankGrowsAlongWalk(edges, rank, p, n - 1);
    }
  }

  lemma RankedIsAcyclic(edges: Edges, rank: map<Id, nat>)
    requires Topological(edges, rank)
    ensures !HasCycle(edges)
  {
    forall c | IsCycle(edges, c) ensures false {
      RankGrowsAlongWalk(edges, rank, c, |c| - 1);
    }
  }

  lemma {:induction false} Pigeonhole(p: seq<Id>, s: set<Id>) returns (i: nat, j: nat)
    requires |p| > |s| && forall x <- p :: x in s
    ensures i < j < |p| && p[i] == p[j]
  {
    var last := |p| - 1;
    if k :| 0 <= k < last && p[k] == p[last] {
      i, j := k, last;
    } else {
      assert forall x <- p[..last] :: x in s - {p[last]};
      i, j := Pigeonhole(p[..last], s - {p[last]});
    }
  }

  /** Inside a stuck set one can walk backwards forever. */
  lemma {:induction false} WalkBack(edges: Edges, s: set<Id>, n: nat) returns (p: seq<Id>)
    requires Stuck(edges, s)
    ensures |p| == n + 1 && Walk(edges, p) && forall x <- p :: x in s
  {
    if n == 0 {
      var x :| x in s;
      p := [x];
    } else {
      var q := WalkBack(edges, s, n - 1);
      assert q[0] in s && WaitsIn(edges, s, q[0]);
      var y :| y in s && (y, q[0]) in edges;
      p := [y] + q;
      forall i | 0 < i < |p| ensures Hop(edges, p, i) {
        assert i > 1 ==> Hop(edges, q, i - 1);
      }
      assert forall x <- p :: x == y || x in q;
    }
  }

  lemma StuckHasCycle(edges: Edges, s: set<Id>)
    requires Stuck(edges, s)
    ensures HasCycle(edges)
  {
    var p := WalkBack(edges, s, |s|);
    var i, j := Pigeonhole(p, s);
    var c := p[i..j + 1];
    forall k | 0 < k < |c| ensures Hop(edges, c, k) {
      assert Hop(edges, p, i + k);
    }
    assert IsCycle(edges, c);
  }

  lemma TriangleIsCycle(edges: Edges, a: Id, b: Id, c: Id)
    requires (a, b) in edges && (b, c) in edges && (c, a) in edges
    ensures HasCycle(edges)
  {
    var p := [a, b, c, a];
    assert Hop(edges, p, 1) && Hop(edges, p, 2) && Hop(edges, p, 3);
    assert IsCycle(edges, p);
  }

  /** The nodes of a cycle wait for each other. */
  lemma CycleIsStuck(edges: Edges, c: seq<Id>)
    requires IsCycle(edges, c)
    ensures Stuck(edges, ToSet(c))
  {
    var s := ToSet(c);
    assert c[0] in s;
    forall x <- s ensures WaitsIn(edges, s, x) {
      var k :| 0 <= k < |c| && c[k] == x;
      var k' := if k == 0 then |c| - 1 else k;
      assert Hop(edges, c, k') && c[k' - 1] in s;
    }
  }

  /** On a finite set of nodes, having no cycle is the same as having a topological rank. */
  lemma {:induction false} AcyclicIsRanked(edges: Edges, nodes: set<Id>) returns (rank: map<Id, nat>)
    requires !HasCycle(edges)
    ensures rank.Keys == nodes
    ensures forall e <- edges :: e.0 in nodes && e.1 in nodes ==> rank[e.0] < rank[e.1]
    decreases nodes
  {
    if nodes == {} {
      rank := map[];
    } else {
      if Stuck(edges, nodes) {
        StuckHasCycle(edges, nodes);
      }
      var x :| x in nodes && !WaitsIn(edges, nodes, x);
      var rest := AcyclicIsRanked(edges, nodes - {x});
      rank := map y | y in nodes :: if y == x then 0 else rest[y] + 1;
    }
  }
}
