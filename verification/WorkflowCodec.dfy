/**
 Import and export of workflow definitions.  An authored request names activities and their
 predecessors; a definition identifies them and keeps all dependencies in one flat list.
 `ident`, which turns a name into an identifier, may be any function that keeps the empty name empty.
 */
module WorkflowCodec {
  import opened Graphs
  import opened Outcomes
  import opened Dependencies

  // ---------- Data ----------

  datatype Source =
    | Catalog(artifact: Option<string>)
    | Oci(reference: string)
    | LocalImage(reference: string)
    | Build(build: string)
    | LocalFile(path: string)
    | RemoteFile(path: string, environment: string, resource: string)
    | ObjectStorage(uri: string)
    | Http(uri: string)
    | Unsupported(kind: string)

  datatype Executable = Executable(source: Source, strategy: string)

  datatype Command = Command(
    entrypoint: string, arguments: seq<string>, executable: Option<Executable>, resolved: Option<string>)

  /** A limit as written: nothing, a plain number, a number with a suffix, or something else. */
  datatype CpuText = NoCpu | Cores(cores: real) | Milli(milli: real) | BadCpu

  datatype MemoryText = NoMemory | Bytes(bytes: int) | Scaled(number: real, unit: Unit) | BadMemory

  datatype Unit = Ki | Mi | Gi

  datatype ActivityRequest = ActivityRequest(
    name: string, command: Command, image: string, runtime: string, run: string,
    memoryLimit: MemoryText, cpuLimit: CpuText, dependsOn: seq<string>,
    resourceSelector: string, keepDisk: bool, mountPath: string)

  datatype Request = Request(name: string, namespace: string, image: string, activities: seq<ActivityRequest>)

  datatype Value = Text(text: string) | Flag(flag: bool)

  datatype WorkflowActivity = WorkflowActivity(
    id: Id, version: Id, kind: Id, externalId: Id, name: string, command: Command, cpu: real, memory: int,
    timeoutSeconds: nat, maxAttempts: nat, priority: nat, metadata: map<string, Value>)

  datatype ActivityType = ActivityType(id: Id, name: string, defaultImage: string)

  datatype Definition = Definition(
    id: Id, externalId: Id, name: string, namespace: string, types: seq<ActivityType>,
    version: Id, hash: string, activities: seq<WorkflowActivity>, dependencies: seq<Dependency>)

  datatype Fault =
    | NameRequired | ActivityNameRequired | DuplicateActivity(name: string)
    | BadLimit(name: string) | CommandRequired(name: string) | BadExecutable(name: string)
    | UnknownPredecessor(name: string, predecessor: string)

  // ---------- One activity ----------

  function CpuValue(text: CpuText): Option<real> {
    match text
    case NoCpu => Some(0.1)
    case Cores(cores) => Some(cores)
    case Milli(milli) => Some(milli / 1000.0)
    case BadCpu => None
  }

  function UnitBytes(unit: Unit): real {
    match unit
    case Ki => 1024.0
    case Mi => 1048576.0
    case Gi => 1073741824.0
  }

  /** Conversion of a number to an integer drops the fraction. */
  function Truncated(x: real): int {
    if x >= 0.0 then x.Floor else -(-x).Floor
  }

  function ByteValue(text: MemoryText): Option<int> {
    match text
    case NoMemory => Some(16 * 1024 * 1024)
    case Bytes(bytes) => Some(bytes)
    case Scaled(number, unit) => Some(Truncated(number * UnitBytes(unit)))
    case BadMemory => None
  }

  predicate ValidExecutable(e: Executable) {
    match e.source
    case Catalog(artifact) => artifact.Some? && artifact.value != ""
    case Oci(reference) => reference != ""
    case LocalImage(reference) => reference != ""
    case Build(build) => build != ""
    case LocalFile(path) => path != ""
    case RemoteFile(path, environment, resource) => path != "" && (environment != "" || resource != "")
    case ObjectStorage(uri) => uri != ""
    case Http(uri) => uri != ""
    case Unsupported(_) => false
  }

  /** The command an activity runs: a shell script and an image stand in for what was not given. */
  function CompletedCommand(value: ActivityRequest, defaultImage: string): Command {
    var shell := if value.command.entrypoint == "" && value.run != ""
                 then value.command.(entrypoint := "sh", arguments := ["-c", value.run])
                 else value.command;
    var image := if value.image == "" then defaultImage else value.image;
    if shell.executable.None? && image != ""
    then shell.(executable := Some(Executable(Oci(image), "auto")))
    else shell
  }

  function ActivityDomain(ident: string -> string, value: ActivityRequest, defaultImage: string,
                          version: Id, kind: Id, index: nat): Result<WorkflowActivity, Fault> {
    var cpu := CpuValue(value.cpuLimit);
    var memory := ByteValue(value.memoryLimit);
    var command := CompletedCommand(value, defaultImage);
    if cpu.None? || memory.None? then Err(BadLimit(value.name))
    else if command.entrypoint == "" || command.executable.None? then Err(CommandRequired(value.name))
    else if !ValidExecutable(command.executable.value) then Err(BadExecutable(value.name))
    else Ok(WorkflowActivity(
              ident(value.name), version, kind, ident(value.name), value.name, command, cpu.value, memory.value,
              3600, 1, |value.dependsOn| + index,
              map["runtime" := Text(value.runtime), "resourceSelector" := Text(value.resourceSelector),
                  "keepDisk" := Flag(value.keepDisk), "mountPath" := Text(value.mountPath)]))
  }

  function TextOf(metadata: map<string, Value>, key: string): string {
    if key in metadata && metadata[key].Text? then metadata[key].text else ""
  }

  function FlagOf(metadata: map<string, Value>, key: string): bool {
    key in metadata && metadata[key].Flag? && metadata[key].flag
  }

  function ActivityExport(a: WorkflowActivity, dependsOn: seq<string>): ActivityRequest {
    ActivityRequest(
      a.name, a.command.(resolved := None), "", TextOf(a.metadata, "runtime"), "", Bytes(a.memory), Cores(a.cpu),
      dependsOn, TextOf(a.metadata, "resourceSelector"), FlagOf(a.metadata, "keepDisk"),
      TextOf(a.metadata, "mountPath"))
  }

  /** One activity survives export and import, up to its resolved executable and its predecessors' number. */
  lemma ActivityRoundTrip(ident: string -> string, value: ActivityRequest, image: string, version: Id, kind: Id,
                          index: nat, a: WorkflowActivity, dependsOn: seq<string>)
    requires ActivityDomain(ident, value, image, version, kind, index) == Ok(a)
    ensures ActivityDomain(ident, ActivityExport(a, dependsOn), "", version, kind, index)
         == Ok(a.(command := a.command.(resolved := None), priority := |dependsOn| + index))
  {
  }

  // ---------- Import ----------

  /** Identifiers of named predecessors. */
  function Idents(ident: string -> string, names: seq<string>): (ids: seq<Id>)
    ensures |ids| == |names|
  {
    seq(|names|, i requires 0 <= i < |names| => ident(names[i]))
  }

  function DependenciesOf(id: Id, predecessors: seq<Id>): (dependencies: seq<Dependency>)
    ensures |dependencies| == |predecessors|
  {
    seq(|predecessors|, i requires 0 <= i < |predecessors| => Dependency(id, predecessors[i]))
  }

  /** All dependencies in one list, activity by activity. */
  function Flattened(ident: string -> string, activities: seq<ActivityRequest>): seq<Dependency> {
    if activities == [] then [] else
      var n := |activities| - 1;
      Flattened(ident, activities[..n])
      + DependenciesOf(ident(activities[n].name), Idents(ident, activities[n].dependsOn))
  }

  predicate Named(activities: seq<ActivityRequest>, name: string) {
    exists i :: 0 <= i < |activities| && activities[i].name == name
  }

  predicate NamesAreUnique(activities: seq<ActivityRequest>) {
    forall i :: 0 <= i < |activities| ==> !Named(activities[..i], activities[i].name)
  }

  function VersionId(ident: string -> string, q: Request): Id {
    ident(q.name) + "-v1"
  }

  function TypeId(ident: string -> string, q: Request): Id {
    ident(q.name) + "-activity"
  }

  function ActivityAt(ident: string -> string, q: Request, i: nat): Result<WorkflowActivity, Fault>
    requires i < |q.activities|
  {
    ActivityDomain(ident, q.activities[i], q.image, VersionId(ident, q), TypeId(ident, q), i)
  }

  ghost predicate PredecessorsNamed(q: Request, i: nat)
    requires i < |q.activities|
  {
    forall p <- q.activities[i].dependsOn :: Named(q.activities, p)
  }

  /** The requests that can be imported. */
  ghost predicate Importable(ident: string -> string, q: Request) {
    && ident(q.name) != "" && q.namespace != ""
    && GoodNames(ident, q.activities)
    && (forall i :: 0 <= i < |q.activities| ==> ActivityAt(ident, q, i).Ok? && PredecessorsNamed(q, i))
  }

  ghost function Imported(ident: string -> string, q: Request): Definition
    requires Importable(ident, q)
  {
    var id := ident(q.name);
    Definition(id, id, q.name, q.namespace, [ActivityType(TypeId(ident, q), q.name + " activity", q.image)],
               VersionId(ident, q), VersionId(ident, q),
               seq(|q.activities|, i requires 0 <= i < |q.activities| => ActivityAt(ident, q, i).value),
               Flattened(ident, q.activities))
  }

  ghost predicate GoodNames(ident: string -> string, activities: seq<ActivityRequest>) {
    && NamesAreUnique(activities)
    && forall i :: 0 <= i < |activities| ==> ident(activities[i].name) != ""
  }

  ghost predicate Indexes(ident: string -> string, names: map<string, Id>, activities: seq<ActivityRequest>) {
    && (forall name :: name in names <==> Named(activities, name))
    && (forall name <- names :: names[name] == ident(name))
  }

  /** Activity `i` is the first whose name identifies nothing or is taken. */
  ghost predicate BadName(ident: string -> string, activities: seq<ActivityRequest>, i: nat, fault: Fault) {
    && i < |activities| && GoodNames(ident, activities[..i])
    && if ident(activities[i].name) == "" then fault == ActivityNameRequired
       else Named(activities[..i], activities[i].name) && fault == DuplicateActivity(activities[i].name)
  }

  lemma BadNameWhen(ident: string -> string, names: map<string, Id>, activities: seq<ActivityRequest>, i: nat)
    requires i < |activities| && GoodNames(ident, activities[..i]) && Indexes(ident, names, activities[..i])
    ensures var name := activities[i].name;
            && (ident(name) == "" ==> BadName(ident, activities, i, ActivityNameRequired))
            && (ident(name) != "" && name in names ==> BadName(ident, activities, i, DuplicateActivity(name)))
  {
  }

  /** The names loop: identifiers by name, unless a name is empty or taken. */
  method IndexNames(ident: string -> string, activities: seq<ActivityRequest>)
    returns (fault: Option<Fault>, names: map<string, Id>)
    ensures fault.None? <==> GoodNames(ident, activities)
    ensures fault.None? ==> Indexes(ident, names, activities)
    ensures fault.Some? ==> exists i :: BadName(ident, activities, i, fault.value)
  {
    names := map[];
    assert GoodNames(ident, activities[..0]) && Indexes(ident, names, activities[..0]);
    hide *;
    for i := 0 to |activities|
      invariant GoodNames(ident, activities[..i]) && Indexes(ident, names, activities[..i])
    {
      NextName(ident, names, activities, i);
      BadNameWhen(ident, names, activities, i);
      if ident(activities[i].name) == "" {
        return Some(ActivityNameRequired), names;
      }
      if activities[i].name in names {
        return Some(DuplicateActivity(activities[i].name)), names;
      }
      names := names[activities[i].name := ident(activities[i].name)];
    }
    assert activities[..|activities|] == activities;
    fault := None;
  }

  lemma NextName(ident: string -> string, names: map<string, Id>, activities: seq<ActivityRequest>, i: nat)
    requires i < |activities| && GoodNames(ident, activities[..i]) && Indexes(ident, names, activities[..i])
    ensures var name := activities[i].name;
            if ident(name) == "" || name in names then !GoodNames(ident, activities)
            else GoodNames(ident, activities[..i + 1])
                 && Indexes(ident, names[name := ident(name)], activities[..i + 1])
  {
    var more := activities[..i + 1];
    NamedSnoc(activities, i);
    hide Named;
    forall k | 0 <= k <= i ensures more[..k] == activities[..k] && more[k] == activities[k] {
    }
    if activities[i].name !in names && ident(activities[i].name) != "" {
      forall k | 0 <= k <= i ensures !Named(more[..k], more[k].name) && ident(more[k].name) != "" {
        assert k < i ==> activities[..i][..k] == activities[..k] && activities[..i][k] == activities[k];
      }
    }
  }

  lemma NamedSnoc(activities: seq<ActivityRequest>, i: nat)
    requires i < |activities|
    ensures forall name ::
              Named(activities[..i + 1], name) <==> Named(activities[..i], name) || name == activities[i].name
  {
  }

  /** The dependencies of one activity, unless a predecessor is unknown. */
  method ImportDependencies(ident: string -> string, names: map<string, Id>, value: ActivityRequest)
    returns (fault: Option<Fault>, dependencies: seq<Dependency>)
    requires forall name <- names :: names[name] == ident(name)
    ensures fault.None? <==> forall p <- value.dependsOn :: p in names
    ensures fault.None? ==> dependencies == DependenciesOf(ident(value.name), Idents(ident, value.dependsOn))
    ensures fault.Some? ==> exists k :: 0 <= k < |value.dependsOn| && value.dependsOn[k] !in names
                                        && (forall p <- value.dependsOn[..k] :: p in names)
                                        && fault.value == UnknownPredecessor(value.name, value.dependsOn[k])
  {
    dependencies := [];
    for k := 0 to |value.dependsOn|
      invariant forall p <- value.dependsOn[..k] :: p in names
      invariant dependencies == DependenciesOf(ident(value.name), Idents(ident, value.dependsOn))[..k]
    {
      var p := value.dependsOn[k];
      if p !in names {
        return Some(UnknownPredecessor(value.name, p)), dependencies;
      }
      dependencies := dependencies + [Dependency(ident(value.name), names[p])];
    }
    fault := None;
  }

  /** Activity `i` is the first that cannot be imported, or that names an unknown predecessor. */
  ghost predicate BadActivity(ident: string -> string, q: Request, i: nat, fault: Fault) {
    && i < |q.activities|
    && (forall k :: 0 <= k < i ==> ActivityAt(ident, q, k).Ok? && PredecessorsNamed(q, k))
    && if ActivityAt(ident, q, i).Err? then fault == ActivityAt(ident, q, i).error
       else exists k: nat :: && FirstUnnamed(q, i, k)
                             && fault == UnknownPredecessor(q.activities[i].name, q.activities[i].dependsOn[k])
  }

  ghost predicate FirstUnnamed(q: Request, i: nat, k: nat)
    requires i < |q.activities|
  {
    var names := q.activities[i].dependsOn;
    k < |names| && !Named(q.activities, names[k]) && forall p <- names[..k] :: Named(q.activities, p)
  }

  /** Why a request cannot be imported; each check is made only when those before it pass. */
  ghost predicate Rejected(ident: string -> string, q: Request, fault: Fault) {
    if ident(q.name) == "" || q.namespace == "" then fault == NameRequired
    else if !GoodNames(ident, q.activities) then exists i :: BadName(ident, q.activities, i, fault)
    else exists i :: BadActivity(ident, q, i, fault)
  }

  method Domain(ident: string -> string, q: Request) returns (r: Result<Definition, Fault>)
    ensures r.Ok? <==> Importable(ident, q)
    ensures r.Ok? ==> r.value == Imported(ident, q)
    ensures r.Err? ==> Rejected(ident, q, r.error)
  {
    hide GoodNames, Named, ActivityAt, DependenciesOf, Idents;
    if ident(q.name) == "" || q.namespace == "" {
      return Err(NameRequired);
    }
    var fault, names := IndexNames(ident, q.activities);
    if fault.Some? {
      return Err(fault.value);
    }
    var activities, dependencies := [], [];
    for i := 0 to |q.activities|
      invariant |activities| == i
      invariant forall k :: 0 <= k < i ==> ActivityAt(ident, q, k) == Ok(activities[k]) && PredecessorsNamed(q, k)
      invariant dependencies == Flattened(ident, q.activities[..i])
    {
      var activity := ActivityAt(ident, q, i);
      if activity.Err? {
        assert BadActivity(ident, q, i, activity.error);
        return Err(activity.error);
      }
      activities := activities + [activity.value];
      var unknown, more := ImportDependencies(ident, names, q.activities[i]);
      if unknown.Some? {
        ghost var k :| 0 <= k < |q.activities[i].dependsOn| && FirstUnnamed(q, i, k)
                       && unknown.value == UnknownPredecessor(q.activities[i].name, q.activities[i].dependsOn[k]);
        assert q.activities[i].dependsOn[k] in q.activities[i].dependsOn;
        assert !PredecessorsNamed(q, i);
        assert BadActivity(ident, q, i, unknown.value);
        return Err(unknown.value);
      }
      assert q.activities[..i + 1][..i] == q.activities[..i];
      dependencies := dependencies + more;
    }
    assert q.activities[..|q.activities|] == q.activities;
    var id := ident(q.name);
    r := Ok(Definition(id, id, q.name, q.namespace, [ActivityType(TypeId(ident, q), q.name + " activity", q.image)],
                       VersionId(ident, q), VersionId(ident, q), activities, dependencies));
  }

  // ---------- Export ----------

  /** The name of an identifier; the last activity that has it gives the name. */
  function NameOf(activities: seq<WorkflowActivity>, id: Id): string {
    if activities == [] then "" else
      var last := activities[|activities| - 1];
      if last.id == id then last.name else NameOf(activities[..|activities| - 1], id)
  }

  /** Names of predecessors, leaving out those that have none. */
  function NamesOf(activities: seq<WorkflowActivity>, ids: seq<Id>): seq<string> {
    if ids == [] then [] else
      var n := |ids| - 1;
      NamesOf(activities, ids[..n]) +
      (if NameOf(activities, ids[n]) != "" then [NameOf(activities, ids[n])] else [])
  }

  function Exported(d: Definition): Request {
    Request(d.name, d.namespace, "",
            seq(|d.activities|, i requires 0 <= i < |d.activities| => ExportedActivity(d, i)))
  }

  function ExportedActivity(d: Definition, i: nat): ActivityRequest
    requires i < |d.activities|
  {
    var a := d.activities[i];
    ActivityExport(a, NamesOf(d.activities, PredecessorsOf(d.dependencies, a.id)))
  }

  function NameIn(names: map<Id, string>, id: Id): string {
    if id in names then names[id] else ""
  }

  method IndexActivityNames(activities: seq<WorkflowActivity>) returns (names: map<Id, string>)
    ensures forall id :: NameIn(names, id) == NameOf(activities, id)
  {
    names := map[];
    for i := 0 to |activities|
      invariant forall id :: NameIn(names, id) == NameOf(activities[..i], id)
    {
      assert activities[..i + 1][..i] == activities[..i];
      names := names[activities[i].id := activities[i].name];
    }
    assert activities[..|activities|] == activities;
  }

  method ExportNames(activities: seq<WorkflowActivity>, names: map<Id, string>, ids: seq<Id>)
    returns (result: seq<string>)
    requires forall id <- ids :: NameIn(names, id) == NameOf(activities, id)
    ensures result == NamesOf(activities, ids)
  {
    result := [];
    for i := 0 to |ids|
      invariant result == NamesOf(activities, ids[..i])
    {
      assert ids[..i + 1][..i] == ids[..i];
      assert NameIn(names, ids[i]) == NameOf(activities, ids[i]);
      if NameIn(names, ids[i]) != "" {
        result := result + [NameIn(names, ids[i])];
      }
    }
    assert ids[..|ids|] == ids;
  }

  method FromDomain(d: Definition) returns (q: Request)
    ensures q == Exported(d)
  {
    hide ActivityExport, NamesOf, NameOf, PredecessorsOf;
    var predecessors := IndexPredecessors(d.dependencies);
    var names := IndexActivityNames(d.activities);
    var items: seq<ActivityRequest> := [];
    for i := 0 to |d.activities|
      invariant |items| == i && forall k :: 0 <= k < i ==> items[k] == ExportedActivity(d, k)
    {
      var a := d.activities[i];
      assert Lookup(predecessors, a.id) == PredecessorsOf(d.dependencies, a.id);
      var dependsOn := ExportNames(d.activities, names, Lookup(predecessors, a.id));
      items := items + [ActivityExport(a, dependsOn)];
    }
    q := Request(d.name, d.namespace, "", items);
  }
}
