/** Control dependencies between activities and the predecessor lists built from them. */
module Dependencies {
  import opened Graphs

  datatype Dependency = Dependency(activity: Id, dependsOn: Id)

  function DependencyEdges(dependencies: seq<Dependency>): Edges {
    set d <- dependencies :: (d.dependsOn, d.activity)
  }

  /** Predecessors of `activity` in record order; repeated records repeat the predecessor. */
  function PredecessorsOf(dependencies: seq<Dependency>, activity: Id): seq<Id> {
    if dependencies == [] then [] else
      var n := |dependencies| - 1;
      PredecessorsOf(dependencies[..n], activity) +
      (if dependencies[n].activity == activity then [dependencies[n].dependsOn] else [])
  }

  function Lookup(lists: map<Id, seq<Id>>, id: Id): seq<Id> {
    if id in lists then lists[id] else []
  }

  function Appended(lists: map<Id, seq<Id>>, id: Id, value: Id): (r: map<Id, seq<Id>>)
    ensures forall x :: Lookup(r, x) == if x == id then Lookup(lists, x) + [value] else Lookup(lists, x)
  {
    lists[id := Lookup(lists, id) + [value]]
  }

  lemma PredecessorsSnoc(dependencies: seq<Dependency>, i: nat)
    requires i < |dependencies|
    ensures forall x {:trigger PredecessorsOf(dependencies[..i + 1], x)} ::
              PredecessorsOf(dependencies[..i + 1], x)
              == if dependencies[i].activity == x
                 then PredecessorsOf(dependencies[..i], x) + [dependencies[i].dependsOn]
                 else PredecessorsOf(dependencies[..i], x)
  {
    assert dependencies[..i + 1][..i] == dependencies[..i];
  }

  method IndexPredecessors(dependencies: seq<Dependency>) returns (predecessors: map<Id, seq<Id>>)
    ensures forall x :: Lookup(predecessors, x) == PredecessorsOf(dependencies, x)
  {
    predecessors := map[];
    for i := 0 to |dependencies|
      invariant forall x :: Lookup(predecessors, x) == PredecessorsOf(dependencies[..i], x)
    {
      PredecessorsSnoc(dependencies, i);
      predecessors := Appended(predecessors, dependencies[i].activity, dependencies[i].dependsOn);
    }
    assert dependencies[..|dependencies|] == dependencies;
  }

  /** The predecessor lists and the dependency edges are the same relation. */
  lemma {:induction false} PredecessorsAreEdges(dependencies: seq<Dependency>, x: Id)
    ensures forall p :: p in PredecessorsOf(dependencies, x) <==> (p, x) in DependencyEdges(dependencies)
  {
    if dependencies != [] {
      var n := |dependencies| - 1;
      PredecessorsAreEdges(dependencies[..n], x);
      assert dependencies == dependencies[..n] + [dependencies[n]];
      assert DependencyEdges(dependencies)
          == DependencyEdges(dependencies[..n]) + {(dependencies[n].dependsOn, dependencies[n].activity)};
    }
  }
}
