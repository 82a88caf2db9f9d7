/**
 Exporting an imported definition and importing it again: always possible, and exact when no two
 dependent activities share an identifier.
 */
module WorkflowRoundTrip {
  import opened Graphs
  import opened Outcomes
  import opened Dependencies
  import opened WorkflowCodec

  // ---------- Grouping a flat dependency list ----------

  /** The predecessors named by all activities with identifier `id`. */
  function Gathered(ident: string -> string, activities: seq<ActivityRequest>, id: Id): seq<Id> {
    if activities == [] then [] else
      var n := |activities| - 1;
      Gathered(ident, activities[..n], id) +
      (if ident(activities[n].name) == id then Idents(ident, activities[n].dependsOn) else [])
  }

  lemma {:induction false} PredecessorsOfConcat(a: seq<Dependency>, b: seq<Dependency>, id: Id)
    ensures PredecessorsOf(a + b, id) == PredecessorsOf(a, id) + PredecessorsOf(b, id)
  {
    if b == [] {
      assert a + b == a;
    } else {
      var n := |b| - 1;
      assert (a + b)[..|a + b| - 1] == a + b[..n];
      PredecessorsOfConcat(a, b[..n], id);
    }
  }

  lemma {:induction false} PredecessorsOfOne(x: Id, predecessors: seq<Id>, id: Id)
    ensures PredecessorsOf(DependenciesOf(x, predecessors), id) == if x == id then predecessors else []
  {
    if predecessors != [] {
      var n := |predecessors| - 1;
      PredecessorsOfOne(x, predecessors[..n], id);
      assert DependenciesOf(x, predecessors)[..n] == DependenciesOf(x, predecessors[..n]);
      assert predecessors == predecessors[..n] + [predecessors[n]];
    }
  }

  /** Flattening and grouping again merges the activities that share an identifier. */
  lemma {:induction false} FlattenedThenGrouped(ident: string -> string, activities: seq<ActivityRequest>, id: Id)
    ensures PredecessorsOf(Flattened(ident, activities), id) == Gathered(ident, activities, id)
  {
    if activities != [] {
      var n := |activities| - 1;
      FlattenedThenGrouped(ident, activities[..n], id);
      var own := DependenciesOf(ident(activities[n].name), Idents(ident, activities[n].dependsOn));
      PredecessorsOfConcat(Flattened(ident, activities[..n]), own, id);
      PredecessorsOfOne(ident(activities[n].name), Idents(ident, activities[n].dependsOn), id);
    }
  }

  /** Some other activity has the identifier of activity `i`. */
  ghost predicate SharesId(ident: string -> string, activities: seq<ActivityRequest>, i: nat, j: nat)
    requires i < |activities| && j < |activities|
  {
    i != j && ident(activities[i].name) == ident(activities[j].name)
  }

  lemma {:induction false} GatheredFromNobody(ident: string -> string, activities: seq<ActivityRequest>, id: Id)
    requires forall j :: 0 <= j < |activities| && ident(activities[j].name) == id ==> activities[j].dependsOn == []
    ensures Gathered(ident, activities, id) == []
  {
    if activities != [] {
      GatheredFromNobody(ident, activities[..|activities| - 1], id);
    }
  }

  /** What activity `i` names is all that is gathered for it when the others with its identifier name nothing. */
  lemma {:induction false} GatheredFromOne(ident: string -> string, activities: seq<ActivityRequest>, i: nat)
    requires i < |activities|
    requires forall j :: 0 <= j < |activities| && SharesId(ident, activities, i, j) ==> activities[j].dependsOn == []
    ensures Gathered(ident, activities, ident(activities[i].name)) == Idents(ident, activities[i].dependsOn)
  {
    var n := |activities| - 1;
    var id := ident(activities[i].name);
    if i < n {
      forall j | 0 <= j < n && SharesId(ident, activities[..n], i, j) ensures activities[..n][j].dependsOn == [] {
        assert SharesId(ident, activities, i, j);
      }
      GatheredFromOne(ident, activities[..n], i);
      assert SharesId(ident, activities, i, n) || ident(activities[n].name) != id;
    } else {
      forall j | 0 <= j < n && ident(activities[..n][j].name) == id ensures activities[..n][j].dependsOn == [] {
        assert SharesId(ident, activities, i, j);
      }
      GatheredFromNobody(ident, activities[..n], id);
    }
  }

  lemma {:induction false} GatheredIncludes(ident: string -> string, activities: seq<ActivityRequest>, i: nat)
    requires i < |activities|
    ensures |Gathered(ident, activities, ident(activities[i].name))| >= |activities[i].dependsOn|
  {
    if i < |activities| - 1 {
      GatheredIncludes(ident, activities[..|activities| - 1], i);
    }
  }

  lemma {:induction false} GatheredIncludesBoth(
    ident: string -> string, activities: seq<ActivityRequest>, i: nat, j: nat)
    requires i < j < |activities| && SharesId(ident, activities, i, j)
    ensures |Gathered(ident, activities, ident(activities[i].name))|
         >= |activities[i].dependsOn| + |activities[j].dependsOn|
  {
    var n := |activities| - 1;
    if j < n {
      assert SharesId(ident, activities[..n], i, j);
      GatheredIncludesBoth(ident, activities[..n], i, j);
    } else {
      GatheredIncludes(ident, activities[..n], i);
    }
  }

  // ---------- Names and identifiers ----------

  /** Every activity's identifier comes from its name and is not empty. */
  ghost predicate IdsFromNames(ident: string -> string, activities: seq<WorkflowActivity>) {
    forall a <- activities :: a.id == ident(a.name) && a.id != ""
  }

  ghost predicate Known(activities: seq<WorkflowActivity>, id: Id) {
    exists a <- activities :: a.id == id
  }

  ghost predicate NamesOne(activities: seq<WorkflowActivity>, id: Id, name: string) {
    exists a <- activities :: a.id == id && a.name == name
  }

  lemma {:induction false} NameOfKnown(activities: seq<WorkflowActivity>, id: Id)
    requires Known(activities, id)
    ensures NamesOne(activities, id, NameOf(activities, id))
  {
    var n := |activities| - 1;
    if activities[n].id != id {
      var a :| a in activities && a.id == id;
      assert a in activities[..n];
      NameOfKnown(activities[..n], id);
    }
  }

  /** Naming known identifiers and identifying the names again changes nothing. */
  lemma {:induction false} NamesThenIdents(ident: string -> string, activities: seq<WorkflowActivity>, ids: seq<Id>)
    requires ident("") == "" && IdsFromNames(ident, activities) && forall id <- ids :: Known(activities, id)
    ensures Idents(ident, NamesOf(activities, ids)) == ids
    ensures forall name <- NamesOf(activities, ids) :: exists a <- activities :: a.name == name
  {
    if ids != [] {
      var n := |ids| - 1;
      NamesThenIdents(ident, activities, ids[..n]);
      assert ids == ids[..n] + [ids[n]];
      NameOfKnown(activities, ids[n]);
      var name := NameOf(activities, ids[n]);
      assert ident(name) == ids[n] && name != "";
      assert NamesOf(activities, ids) == NamesOf(activities, ids[..n]) + [name];
    }
  }

  // ---------- The round trip ----------

  function WithoutImage(d: Definition): Definition {
    d.(types := seq(|d.types|, i requires 0 <= i < |d.types| => d.types[i].(defaultImage := "")))
  }

  ghost predicate NoneResolved(d: Definition) {
    forall a <- d.activities :: a.command.resolved.None?
  }

  /** Activities that share an identifier have no dependencies. */
  ghost predicate SharedIdsAreIndependent(d: Definition) {
    forall i, j :: 0 <= i < j < |d.activities| && d.activities[i].id == d.activities[j].id
      ==> PredecessorsOf(d.dependencies, d.activities[i].id) == []
  }

  ghost predicate Imports(ident: string -> string, q: Request, d: Definition) {
    Importable(ident, q) && d == Imported(ident, q)
  }

  /** Export and import give back the definition without its default image. */
  ghost predicate RoundTrips(ident: string -> string, d: Definition) {
    Importable(ident, Exported(d)) && Imported(ident, Exported(d)) == WithoutImage(d)
  }

  lemma ImportedActivity(ident: string -> string, q: Request, d: Definition, i: nat)
    requires Imports(ident, q, d) && i < |q.activities|
    ensures |d.activities| == |q.activities| && ActivityAt(ident, q, i) == Ok(d.activities[i])
    ensures d.activities[i].name == q.activities[i].name
    ensures d.activities[i].id == ident(q.activities[i].name) && d.activities[i].id != ""
    ensures d.activities[i].priority == |q.activities[i].dependsOn| + i
  {
  }

  lemma ImportedIds(ident: string -> string, q: Request, d: Definition)
    requires Imports(ident, q, d)
    ensures IdsFromNames(ident, d.activities)
    ensures forall name :: Named(q.activities, name) ==> Known(d.activities, ident(name))
  {
    forall a <- d.activities ensures a.id == ident(a.name) && a.id != "" {
      var i :| 0 <= i < |d.activities| && d.activities[i] == a;
      ImportedActivity(ident, q, d, i);
    }
    forall name | Named(q.activities, name) ensures Known(d.activities, ident(name)) {
      var i :| 0 <= i < |q.activities| && q.activities[i].name == name;
      ImportedActivity(ident, q, d, i);
      assert d.activities[i] in d.activities;
    }
  }

  lemma {:induction false} GatheredAreKnown(
    ident: string -> string, activities: seq<ActivityRequest>, id: Id, known: seq<WorkflowActivity>)
    requires forall i :: 0 <= i < |activities| ==>
               forall p <- activities[i].dependsOn :: Known(known, ident(p))
    ensures forall p <- Gathered(ident, activities, id) :: Known(known, p)
  {
    hide Known;
    if activities != [] {
      GatheredAreKnown(ident, activities[..|activities| - 1], id, known);
    }
  }

  /** What activity `i` looks like once exported. */
  lemma ExportedFacts(ident: string -> string, q: Request, d: Definition, i: nat)
    requires ident("") == "" && Imports(ident, q, d) && i < |q.activities|
    ensures |d.activities| == |q.activities| == |Exported(d).activities|
    ensures var a := Exported(d).activities[i];
            && a.name == q.activities[i].name
            && a == ActivityExport(d.activities[i], a.dependsOn)
            && Idents(ident, a.dependsOn) == Gathered(ident, q.activities, ident(q.activities[i].name))
            && (forall p <- a.dependsOn :: exists other <- d.activities :: other.name == p)
  {
    ImportedActivity(ident, q, d, i);
    ImportedIds(ident, q, d);
    var id := ident(q.activities[i].name);
    FlattenedThenGrouped(ident, q.activities, id);
    forall k | 0 <= k < |q.activities| ensures forall p <- q.activities[k].dependsOn :: Known(d.activities, ident(p)) {
      assert PredecessorsNamed(q, k);
    }
    GatheredAreKnown(ident, q.activities, id, d.activities);
    NamesThenIdents(ident, d.activities, PredecessorsOf(d.dependencies, id));
  }

  lemma SameNames(ident: string -> string, a: seq<ActivityRequest>, b: seq<ActivityRequest>)
    requires |a| == |b| && (forall i :: 0 <= i < |a| ==> a[i].name == b[i].name)
    requires GoodNames(ident, a)
    ensures GoodNames(ident, b)
  {
  }

  /** How activity `i` is imported again. */
  lemma ReimportedActivity(ident: string -> string, q: Request, d: Definition, i: nat)
    requires ident("") == "" && Imports(ident, q, d) && i < |q.activities|
    ensures |d.activities| == |q.activities| == |Exported(d).activities|
    ensures var a := d.activities[i];
            ActivityAt(ident, Exported(d), i)
            == Ok(a.(command := a.command.(resolved := None),
                     priority := |Gathered(ident, q.activities, ident(q.activities[i].name))| + i))
  {
    ExportedFacts(ident, q, d, i);
    ImportedActivity(ident, q, d, i);
    assert VersionId(ident, Exported(d)) == VersionId(ident, q) && TypeId(ident, Exported(d)) == TypeId(ident, q);
    hide ActivityDomain, ActivityExport, Importable, Gathered, VersionId, TypeId;
    ActivityRoundTrip(ident, q.activities[i], q.image, VersionId(ident, q), TypeId(ident, q), i,
                      d.activities[i], Exported(d).activities[i].dependsOn);
  }

  lemma ReimportedPredecessors(ident: string -> string, q: Request, d: Definition, i: nat)
    requires ident("") == "" && Imports(ident, q, d) && i < |q.activities|
    ensures |d.activities| == |q.activities| == |Exported(d).activities|
    ensures PredecessorsNamed(Exported(d), i)
  {
    var r := Exported(d);
    ExportedFacts(ident, q, d, i);
    assert forall k :: 0 <= k < |r.activities| ==> r.activities[k].name == d.activities[k].name;
    hide Imports, Importable, Exported, ExportedActivity, ActivityExport, Gathered, Idents, Named;
    forall p <- r.activities[i].dependsOn ensures Named(r.activities, p) {
      NamedAlike(r.activities, d.activities, p);
    }
  }

  lemma NamedAlike(a: seq<ActivityRequest>, b: seq<WorkflowActivity>, name: string)
    requires |a| == |b| && (forall k :: 0 <= k < |a| ==> a[k].name == b[k].name)
    requires exists other <- b :: other.name == name
    ensures Named(a, name)
  {
    var other :| other in b && other.name == name;
    var k :| 0 <= k < |b| && b[k] == other;
    assert a[k].name == name;
  }

  /** What was imported and exported can be imported again. */
  lemma ExportIsImportable(ident: string -> string, q: Request, d: Definition)
    requires ident("") == "" && Imports(ident, q, d)
    ensures Importable(ident, Exported(d))
  {
    var r := Exported(d);
    forall i | 0 <= i < |r.activities|
      ensures ActivityAt(ident, r, i).Ok? && PredecessorsNamed(r, i) && r.activities[i].name == q.activities[i].name
    {
      ReimportedActivity(ident, q, d, i);
      ReimportedPredecessors(ident, q, d, i);
      ExportedFacts(ident, q, d, i);
    }
    SameNames(ident, q.activities, r.activities);
  }

  lemma {:induction false} SameFlattened(ident: string -> string, a: seq<ActivityRequest>, b: seq<ActivityRequest>)
    requires |a| == |b|
    requires forall i :: 0 <= i < |a| ==>
               a[i].name == b[i].name && Idents(ident, a[i].dependsOn) == Idents(ident, b[i].dependsOn)
    ensures Flattened(ident, a) == Flattened(ident, b)
  {
    if a != [] {
      SameFlattened(ident, a[..|a| - 1], b[..|b| - 1]);
    }
  }

  /** Independent shared identifiers, said of the request. */
  lemma IndependentRequest(ident: string -> string, q: Request, d: Definition, i: nat)
    requires Imports(ident, q, d) && SharedIdsAreIndependent(d) && i < |q.activities|
    ensures Gathered(ident, q.activities, ident(q.activities[i].name)) == Idents(ident, q.activities[i].dependsOn)
  {
    forall j | 0 <= j < |q.activities| && SharesId(ident, q.activities, i, j) ensures q.activities[j].dependsOn == [] {
      ImportedActivity(ident, q, d, i);
      ImportedActivity(ident, q, d, j);
      var id := ident(q.activities[i].name);
      assert PredecessorsOf(d.dependencies, id) == [];
      FlattenedThenGrouped(ident, q.activities, id);
      GatheredIncludes(ident, q.activities, j);
    }
    GatheredFromOne(ident, q.activities, i);
  }

  lemma UnchangedIfIndependent(ident: string -> string, q: Request, d: Definition)
    requires ident("") == "" && Imports(ident, q, d) && NoneResolved(d) && SharedIdsAreIndependent(d)
    ensures RoundTrips(ident, d)
  {
    hide *;
    ExportIsImportable(ident, q, d);
    SameDependencies(ident, q, d);
    SamePartsSuffice(ident, q, d);
  }

  lemma SameDependencies(ident: string -> string, q: Request, d: Definition)
    requires ident("") == "" && Imports(ident, q, d) && NoneResolved(d) && SharedIdsAreIndependent(d)
    ensures |Exported(d).activities| == |d.activities|
    ensures forall i :: 0 <= i < |d.activities| ==> ActivityAt(ident, Exported(d), i) == Ok(d.activities[i])
    ensures Flattened(ident, Exported(d).activities) == Flattened(ident, q.activities)
  {
    var r := Exported(d);
    assert |d.activities| == |q.activities| == |r.activities|;
    hide *;
    forall i | 0 <= i < |d.activities|
      ensures r.activities[i].name == q.activities[i].name && ActivityAt(ident, r, i) == Ok(d.activities[i])
      ensures Idents(ident, r.activities[i].dependsOn) == Idents(ident, q.activities[i].dependsOn)
    {
      SameActivity(ident, q, d, i);
    }
    SameFlattened(ident, r.activities, q.activities);
  }

  lemma SamePartsSuffice(ident: string -> string, q: Request, d: Definition)
    requires Imports(ident, q, d) && Importable(ident, Exported(d))
    ensures |Exported(d).activities| == |d.activities|
    ensures (&& (forall i :: 0 <= i < |d.activities| ==> ActivityAt(ident, Exported(d), i) == Ok(d.activities[i]))
             && Flattened(ident, Exported(d).activities) == Flattened(ident, q.activities)) ==>
              RoundTrips(ident, d)
  {
    hide Importable, ActivityAt, Flattened, ExportedActivity;
    if forall i :: 0 <= i < |d.activities| ==> ActivityAt(ident, Exported(d), i) == Ok(d.activities[i]) {
      assert Imported(ident, Exported(d)).activities == d.activities;
    }
  }

  lemma SameActivity(ident: string -> string, q: Request, d: Definition, i: nat)
    requires ident("") == "" && Imports(ident, q, d) && NoneResolved(d) && SharedIdsAreIndependent(d)
    requires i < |q.activities|
    ensures |d.activities| == |q.activities| == |Exported(d).activities|
    ensures Exported(d).activities[i].name == q.activities[i].name
    ensures ActivityAt(ident, Exported(d), i) == Ok(d.activities[i])
    ensures Idents(ident, Exported(d).activities[i].dependsOn) == Idents(ident, q.activities[i].dependsOn)
  {
    ImportedActivity(ident, q, d, i);
    assert d.activities[i] in d.activities && d.activities[i].command.resolved.None?;
    hide *;
    ExportedFacts(ident, q, d, i);
    ReimportedActivity(ident, q, d, i);
    IndependentRequest(ident, q, d, i);
  }

  lemma UnchangedOnlyIfIndependent(ident: string -> string, q: Request, d: Definition)
    requires ident("") == "" && Imports(ident, q, d)
    requires RoundTrips(ident, d)
    ensures NoneResolved(d) && SharedIdsAreIndependent(d)
  {
    var e := Imported(ident, Exported(d));
    forall i | 0 <= i < |d.activities|
      ensures d.activities[i].command.resolved.None?
      ensures |Gathered(ident, q.activities, ident(q.activities[i].name))| == |q.activities[i].dependsOn|
    {
      ReimportedActivity(ident, q, d, i);
      ImportedActivity(ident, q, d, i);
      assert e.activities[i] == d.activities[i];
    }
    forall i, j | 0 <= i < j < |d.activities| && d.activities[i].id == d.activities[j].id
      ensures PredecessorsOf(d.dependencies, d.activities[i].id) == []
    {
      ImportedActivity(ident, q, d, i);
      ImportedActivity(ident, q, d, j);
      GatheredIncludesBoth(ident, q.activities, i, j);
      FlattenedThenGrouped(ident, q.activities, d.activities[i].id);
    }
  }

  /**
   Export and import give back the definition without its default image, exactly when no activity
   carries a resolved executable and activities that share an identifier have no dependencies.
   */
  lemma RoundTrip(ident: string -> string, q: Request, d: Definition)
    requires ident("") == "" && Imports(ident, q, d)
    ensures Importable(ident, Exported(d))
    ensures RoundTrips(ident, d) <==> NoneResolved(d) && SharedIdsAreIndependent(d)
  {
    ExportIsImportable(ident, q, d);
    hide *;
    if NoneResolved(d) && SharedIdsAreIndependent(d) {
      UnchangedIfIndependent(ident, q, d);
    } else if RoundTrips(ident, d) {
      UnchangedOnlyIfIndependent(ident, q, d);
    }
  }

  /** With distinct identifiers the round trip is exact, and exporting once more gives the same request. */
  lemma DistinctIdsRoundTrip(ident: string -> string, q: Request, d: Definition)
    requires ident("") == "" && Imports(ident, q, d) && NoneResolved(d)
    requires forall i, j :: 0 <= i < j < |d.activities| ==> d.activities[i].id != d.activities[j].id
    ensures Imports(ident, Exported(d), WithoutImage(d))
    ensures Exported(WithoutImage(d)) == Exported(d)
  {
    RoundTrip(ident, q, d);
  }

  // ---------- Where it is not exact ----------

  /** Whenever a dependent activity shares its identifier, the round trip changes the definition. */
  lemma SharedDependentChanges(ident: string -> string, q: Request, d: Definition, i: nat, j: nat)
    requires ident("") == "" && Imports(ident, q, d)
    requires i < |q.activities| && j < |q.activities| && SharesId(ident, q.activities, i, j)
    requires q.activities[j].dependsOn != []
    ensures Importable(ident, Exported(d)) && !RoundTrips(ident, d)
  {
    ImportedActivity(ident, q, d, i);
    ImportedActivity(ident, q, d, j);
    assert d.dependencies == Flattened(ident, q.activities);
    hide Imports, Importable, Imported, Exported, RoundTrips, Gathered, Flattened;
    RoundTrip(ident, q, d);
    GatheredIncludes(ident, q.activities, j);
    FlattenedThenGrouped(ident, q.activities, ident(q.activities[j].name));
  }

  function LowerA(name: string): Id {
    if name == "A" then "a" else name
  }

  function Plain(name: string, dependsOn: seq<string>): ActivityRequest {
    ActivityRequest(name, Command("run", [], None, None), "", "", "", NoMemory, NoCpu, dependsOn, "", false, "")
  }

  /** `a` waits for `r`, and `A` for nothing; both are identified as `a`. */
  function TwoAs(): Request {
    Request("w", "n", "image", [Plain("r", []), Plain("a", ["r"]), Plain("A", [])])
  }

  lemma TwoAsNames(activities: seq<ActivityRequest>)
    requires |activities| == 3
    requires activities[0].name == "r" && activities[1].name == "a" && activities[2].name == "A"
    ensures GoodNames(LowerA, activities) && Named(activities, "r") && LowerA("w") != ""
  {
  }

  lemma PlainImports(ident: string -> string, name: string, dependsOn: seq<string>, version: Id, kind: Id, i: nat)
    ensures ActivityDomain(ident, Plain(name, dependsOn), "image", version, kind, i).Ok?
  {
  }

  lemma TwoAsImport()
    ensures Importable(LowerA, TwoAs())
  {
    var q := TwoAs();
    TwoAsNames(q.activities);
    hide LowerA, GoodNames, Named, ActivityDomain;
    PlainImports(LowerA, "r", [], VersionId(LowerA, q), TypeId(LowerA, q), 0);
    PlainImports(LowerA, "a", ["r"], VersionId(LowerA, q), TypeId(LowerA, q), 1);
    PlainImports(LowerA, "A", [], VersionId(LowerA, q), TypeId(LowerA, q), 2);
  }

  /** The dependency of `a` is copied to `A` on the way, so the definition changes. */
  lemma TwoAsChange()
    ensures Importable(LowerA, TwoAs())
    ensures !RoundTrips(LowerA, Imported(LowerA, TwoAs()))
  {
    TwoAsImport();
    TwoAsShare();
    hide *;
    TwoAsDiffer(Imported(LowerA, TwoAs()));
  }

  lemma TwoAsDiffer(d: Definition)
    requires Importable(LowerA, TwoAs()) && d == Imported(LowerA, TwoAs())
    ensures !RoundTrips(LowerA, d)
  {
    TwoAsShare();
    assert Imports(LowerA, TwoAs(), d);
    hide *;
    SharedDependentChanges(LowerA, TwoAs(), d, 2, 1);
  }

  lemma TwoAsShare()
    ensures var q := TwoAs();
            |q.activities| == 3 && q.activities[1].dependsOn != [] && SharesId(LowerA, q.activities, 2, 1)
    ensures LowerA("") == ""
  {
  }
}
