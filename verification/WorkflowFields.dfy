/** What importing makes of the fields of a request. */
module WorkflowFields {
  import opened Graphs
  import opened Outcomes
  import opened WorkflowCodec

  // ---------- Limits ----------

  ghost predicate CpuIs(text: CpuText, cpu: real) {
    match text
    case NoCpu => 10.0 * cpu == 1.0
    case Cores(cores) => cpu == cores
    case Milli(milli) => 1000.0 * cpu == milli
    case BadCpu => false
  }

  /** `n` is the integer next to `x` on the side of zero. */
  ghost predicate NextToZero(x: real, n: int) {
    && (x >= 0.0 ==> n as real <= x < n as real + 1.0)
    && (x <= 0.0 ==> n as real - 1.0 < x <= n as real)
  }

  ghost predicate MemoryIs(text: MemoryText, memory: int) {
    match text
    case NoMemory => memory == 16 * 1048576
    case Bytes(bytes) => memory == bytes
    case Scaled(number, Ki) => NextToZero(1024.0 * number, memory)
    case Scaled(number, Mi) => NextToZero(1024.0 * 1024.0 * number, memory)
    case Scaled(number, Gi) => NextToZero(1024.0 * 1024.0 * 1024.0 * number, memory)
    case BadMemory => false
  }

  lemma CpuByFields(text: CpuText)
    ensures if CpuValue(text).Some? then CpuIs(text, CpuValue(text).value) else text == BadCpu
  {
  }

  lemma MemoryByFields(text: MemoryText)
    ensures if ByteValue(text).Some? then MemoryIs(text, ByteValue(text).value) else text == BadMemory
  {
  }

  lemma SameCpu(c: real)
    ensures CpuValue(Milli(1000.0 * c)) == CpuValue(Cores(c))
  {
  }

  lemma SameMemory(n: real)
    ensures ByteValue(Scaled(n, Mi)) == ByteValue(Scaled(1024.0 * n, Ki))
    ensures ByteValue(Scaled(n, Gi)) == ByteValue(Scaled(1024.0 * n, Mi))
  {
    assert (1024.0 * n) * 1024.0 == n * 1048576.0 && (1024.0 * n) * 1048576.0 == n * 1073741824.0;
  }

  lemma OnlyValuesMatter(ident: string -> string, value: ActivityRequest, image: string, version: Id, kind: Id,
                         index: nat, cpu: CpuText, memory: MemoryText)
    requires CpuValue(value.cpuLimit) == CpuValue(cpu) && ByteValue(value.memoryLimit) == ByteValue(memory)
    ensures ActivityDomain(ident, value.(cpuLimit := cpu, memoryLimit := memory), image, version, kind, index)
         == ActivityDomain(ident, value, image, version, kind, index)
  {
    hide CpuValue, ByteValue, ValidExecutable;
    assert CompletedCommand(value.(cpuLimit := cpu, memoryLimit := memory), image) == CompletedCommand(value, image);
    hide CompletedCommand;
  }

  /** The same limit imports alike, however it is written. */
  lemma UnitsDoNotMatter(ident: string -> string, value: ActivityRequest, image: string, version: Id, kind: Id,
                         index: nat, c: real, n: real)
    ensures ActivityDomain(ident, value.(cpuLimit := Milli(1000.0 * c)), image, version, kind, index)
         == ActivityDomain(ident, value.(cpuLimit := Cores(c)), image, version, kind, index)
    ensures ActivityDomain(ident, value.(memoryLimit := Scaled(n, Mi)), image, version, kind, index)
         == ActivityDomain(ident, value.(memoryLimit := Scaled(1024.0 * n, Ki)), image, version, kind, index)
    ensures ActivityDomain(ident, value.(memoryLimit := Scaled(n, Gi)), image, version, kind, index)
         == ActivityDomain(ident, value.(memoryLimit := Scaled(1024.0 * n, Mi)), image, version, kind, index)
  {
    SameCpu(c);
    SameMemory(n);
    hide *;
    OnlyValuesMatter(ident, value.(cpuLimit := Cores(c)), image, version, kind, index, Milli(1000.0 * c),
                     value.memoryLimit);
    OnlyValuesMatter(ident, value.(memoryLimit := Scaled(n, Mi)), image, version, kind, index, value.cpuLimit,
                     Scaled(1024.0 * n, Ki));
    OnlyValuesMatter(ident, value.(memoryLimit := Scaled(n, Gi)), image, version, kind, index, value.cpuLimit,
                     Scaled(1024.0 * n, Mi));
  }

  // ---------- Commands ----------

  /** Where an executable is found; nothing for a kind of source that is not supported. */
  function Location(source: Source): string {
    match source
    case Catalog(artifact) => if artifact.Some? then artifact.value else ""
    case Oci(reference) => reference
    case LocalImage(reference) => reference
    case Build(build) => build
    case LocalFile(path) => path
    case RemoteFile(path, _, _) => path
    case ObjectStorage(uri) => uri
    case Http(uri) => uri
    case Unsupported(_) => ""
  }

  /** An executable is valid exactly when it can be located, a remote file also on some machine. */
  lemma ValidWhenLocated(e: Executable)
    ensures ValidExecutable(e)
            <==> Location(e.source) != "" && (e.source.RemoteFile? ==> e.source.environment + e.source.resource != "")
  {
  }

  /** The image that stands in for an executable. */
  ghost predicate StandsIn(value: ActivityRequest, defaultImage: string, image: string) {
    image == value.image != "" || (value.image == "" && image == defaultImage != "")
  }

  /** The command of an imported activity: as given, or a shell script, in the given executable or an image. */
  ghost predicate Runs(value: ActivityRequest, defaultImage: string, command: Command) {
    && (value.command.entrypoint != "" ==>
          command.entrypoint == value.command.entrypoint && command.arguments == value.command.arguments)
    && (value.command.entrypoint == "" ==>
          value.run != "" && command.entrypoint == "sh" && command.arguments == ["-c", value.run])
    && (value.command.executable.Some? ==> command.executable == value.command.executable)
    && (value.command.executable.None? ==>
          exists image :: StandsIn(value, defaultImage, image)
                          && command.executable == Some(Executable(Oci(image), "auto")))
    && command.resolved == value.command.resolved
  }

  lemma CommandByFields(value: ActivityRequest, defaultImage: string)
    ensures var c := CompletedCommand(value, defaultImage);
            if c.entrypoint != "" && c.executable.Some? then Runs(value, defaultImage, c)
            else || (value.command.entrypoint == "" && value.run == "")
                 || (value.command.executable.None? && value.image == "" && defaultImage == "")
  {
    var c := CompletedCommand(value, defaultImage);
    if c.entrypoint != "" && c.executable.Some? && value.command.executable.None? {
      assert StandsIn(value, defaultImage, c.executable.value.source.reference);
    }
  }

  // ---------- Activities ----------

  /** The metadata of an activity holds what its request says about where and how it runs, and nothing else. */
  ghost predicate Keeps(value: ActivityRequest, metadata: map<string, Value>) {
    && metadata.Keys == {"runtime", "resourceSelector", "keepDisk", "mountPath"}
    && metadata["runtime"] == Text(value.runtime) && metadata["resourceSelector"] == Text(value.resourceSelector)
    && metadata["keepDisk"] == Flag(value.keepDisk) && metadata["mountPath"] == Text(value.mountPath)
  }

  lemma KeepsFour(value: ActivityRequest)
    ensures Keeps(value, map["runtime" := Text(value.runtime), "resourceSelector" := Text(value.resourceSelector),
                             "keepDisk" := Flag(value.keepDisk), "mountPath" := Text(value.mountPath)])
  {
  }

  /** The activity that an activity request becomes, in fields. */
  ghost predicate Becomes(ident: string -> string, q: Request, i: nat, a: WorkflowActivity)
    requires i < |q.activities|
  {
    var value := q.activities[i];
    && a.id == a.externalId == ident(value.name) && a.name == value.name
    && a.version == ident(q.name) + "-v1" && a.kind == ident(q.name) + "-activity"
    && Runs(value, q.image, a.command)
    && CpuIs(value.cpuLimit, a.cpu) && MemoryIs(value.memoryLimit, a.memory)
    && a.timeoutSeconds == 60 * 60 && a.maxAttempts == 1
    && a.priority - i == |value.dependsOn|
    && Keeps(value, a.metadata)
  }

  /** Why an activity cannot be imported; limits are looked at first, the executable last. */
  ghost predicate CannotBecome(value: ActivityRequest, defaultImage: string, fault: Fault) {
    var limited := value.cpuLimit != BadCpu && value.memoryLimit != BadMemory;
    var startable := value.command.entrypoint != "" || value.run != "";
    var executable := value.command.executable.Some? || value.image != "" || defaultImage != "";
    match fault
    case BadLimit(name) => name == value.name && !limited
    case CommandRequired(name) => name == value.name && limited && !(startable && executable)
    case BadExecutable(name) =>
      && name == value.name && limited && startable
      && value.command.executable.Some? && !ValidExecutable(value.command.executable.value)
    case _ => false
  }

  /** Each activity request becomes an activity with its fields, or there is a reason why it cannot. */
  lemma ImportedByFields(ident: string -> string, q: Request, i: nat)
    requires i < |q.activities|
    ensures match ActivityAt(ident, q, i)
            case Ok(a) => Becomes(ident, q, i, a) && ValidExecutable(a.command.executable.value)
            case Err(fault) => CannotBecome(q.activities[i], q.image, fault)
  {
    var value := q.activities[i];
    CpuByFields(value.cpuLimit);
    MemoryByFields(value.memoryLimit);
    CommandByFields(value, q.image);
    KeepsFour(value);
    hide CpuValue, ByteValue, CpuIs, MemoryIs, Runs, Keeps;
  }

  /** What an imported definition says of itself and of each activity. */
  lemma DefinitionByFields(ident: string -> string, q: Request)
    requires Importable(ident, q)
    ensures var d := Imported(ident, q);
            && d.id == d.externalId == ident(q.name) && d.name == q.name && d.namespace == q.namespace
            && d.version == d.hash == ident(q.name) + "-v1"
            && |d.types| == 1 && d.types[0].id == ident(q.name) + "-activity" && d.types[0].defaultImage == q.image
            && |d.activities| == |q.activities|
            && forall i :: 0 <= i < |q.activities| ==> Becomes(ident, q, i, d.activities[i])
  {
    forall i | 0 <= i < |q.activities| ensures Becomes(ident, q, i, Imported(ident, q).activities[i]) {
      ImportedByFields(ident, q, i);
    }
  }
}
