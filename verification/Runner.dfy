/**
 The SimGrid runner: one actor per task and one per data transfer.  A task takes a token
 from each of its producers and lane predecessors, executes, and then signals its consumers
 and lane successors; a transfer turns the producer's signal into the consumer's data token.
 */
module Runner {
  import opened Graphs
  import opened Mailboxes

  datatype RunnerDependency = RunnerDependency(producer: Id, consumer: Id, bytes: int)

  datatype LaneStep = LaneStep(predecessor: Id, successor: Id)

  datatype Input = Input(
    tasks: seq<Id>,
    resources: map<Id, Id>,
    dependencies: seq<RunnerDependency>,
    lanes: seq<LaneStep>
  )

  /** Tasks are listed once and all records are about tasks; the runner rejects anything else. */
  ghost predicate WellFormed(input: Input) {
    && Distinct(input.tasks)
    && (forall d <- input.dependencies :: d.producer in input.tasks && d.consumer in input.tasks)
    && (forall l <- input.lanes :: l.predecessor in input.tasks && l.successor in input.tasks)
  }

  function ResourceOf(input: Input, id: Id): Id {
    if id in input.resources then input.resources[id] else ""
  }

  predicate Local(input: Input, p: Id, c: Id) {
    ResourceOf(input, p) == ResourceOf(input, c)
  }

  function WaitEdges(input: Input): Edges {
    (set d <- input.dependencies :: (d.producer, d.consumer)) +
    (set l <- input.lanes :: (l.predecessor, l.successor))
  }

  /** Every dependency between different resources moves at least one byte. */
  ghost predicate AllMoveBytes(input: Input) {
    forall d <- input.dependencies :: !Local(input, d.producer, d.consumer) ==> d.bytes > 0
  }

  // ---------- The programs of the actors ----------

  function Waits(input: Input, dependencies: seq<RunnerDependency>, t: Id): Program {
    if dependencies == [] then [] else
      var n := |dependencies| - 1;
      var p := dependencies[n].producer;
      Waits(input, dependencies[..n], t) +
      (if dependencies[n].consumer == t then [Get(if Local(input, p, t) then Ready(p, t) else Data(p, t))] else [])
  }

  function LaneWaits(lanes: seq<LaneStep>, t: Id): Program {
    if lanes == [] then [] else
      var n := |lanes| - 1;
      LaneWaits(lanes[..n], t) + (if lanes[n].successor == t then [Get(LaneFree(lanes[n].predecessor, t))] else [])
  }

  function Signals(dependencies: seq<RunnerDependency>, t: Id): Program {
    if dependencies == [] then [] else
      var n := |dependencies| - 1;
      Signals(dependencies[..n], t) +
      (if dependencies[n].producer == t then [Put(Ready(t, dependencies[n].consumer))] else [])
  }

  function LaneSignals(lanes: seq<LaneStep>, t: Id): Program {
    if lanes == [] then [] else
      var n := |lanes| - 1;
      LaneSignals(lanes[..n], t) + (if lanes[n].predecessor == t then [Put(LaneFree(t, lanes[n].successor))] else [])
  }

  function Inbox(input: Input, t: Id): Program {
    Waits(input, input.dependencies, t) + LaneWaits(input.lanes, t)
  }

  function Outbox(input: Input, t: Id): Program {
    Signals(input.dependencies, t) + LaneSignals(input.lanes, t)
  }

  function TaskProgram(input: Input, t: Id): Program {
    Inbox(input, t) + [Run] + Outbox(input, t)
  }

  /** Transfers exist only for positive byte counts between different resources. */
  function Transfers(input: Input, dependencies: seq<RunnerDependency>): seq<RunnerDependency> {
    if dependencies == [] then [] else
      var n := |dependencies| - 1;
      var d := dependencies[n];
      Transfers(input, dependencies[..n]) + (if d.bytes > 0 && !Local(input, d.producer, d.consumer) then [d] else [])
  }

  function TransferProgram(d: RunnerDependency): Program {
    [Get(Ready(d.producer, d.consumer)), Put(Data(d.producer, d.consumer))]
  }

  function TaskPrograms(input: Input, tasks: seq<Id>): seq<Program> {
    seq(|tasks|, i requires 0 <= i < |tasks| => TaskProgram(input, tasks[i]))
  }

  function TransferPrograms(transfers: seq<RunnerDependency>): seq<Program> {
    seq(|transfers|, i requires 0 <= i < |transfers| => TransferProgram(transfers[i]))
  }

  /** All actors: the tasks first, then the transfers. */
  function Programs(input: Input): seq<Program> {
    TaskPrograms(input, input.tasks) + TransferPrograms(Transfers(input, input.dependencies))
  }

  method CreateTransfers(input: Input) returns (transfers: seq<RunnerDependency>)
    ensures transfers == Transfers(input, input.dependencies)
  {
    transfers := [];
    for i := 0 to |input.dependencies|
      invariant transfers == Transfers(input, input.dependencies[..i])
    {
      var d := input.dependencies[i];
      assert input.dependencies[..i + 1][..i] == input.dependencies[..i];
      if d.bytes <= 0 || Local(input, d.producer, d.consumer) {
        continue;
      }
      transfers := transfers + [d];
    }
    assert input.dependencies[..|input.dependencies|] == input.dependencies;
  }

  // ---------- What the programs contain ----------

  function Records(dependencies: seq<RunnerDependency>, p: Id, c: Id): nat {
    if dependencies == [] then 0 else
      var n := |dependencies| - 1;
      Records(dependencies[..n], p, c) +
      if dependencies[n].producer == p && dependencies[n].consumer == c then 1 else 0
  }

  function PositiveRecords(dependencies: seq<RunnerDependency>, p: Id, c: Id): nat {
    if dependencies == [] then 0 else
      var n := |dependencies| - 1;
      PositiveRecords(dependencies[..n], p, c) +
      if dependencies[n].producer == p && dependencies[n].consumer == c && dependencies[n].bytes > 0 then 1 else 0
  }

  function LaneRecords(lanes: seq<LaneStep>, p: Id, c: Id): nat {
    if lanes == [] then 0 else
      var n := |lanes| - 1;
      LaneRecords(lanes[..n], p, c) + if lanes[n].predecessor == p && lanes[n].successor == c then 1 else 0
  }

  /** How often task `t` executes `x`. */
  function Expected(input: Input, t: Id, x: Instruction): nat {
    match x
    case Run => 1
    case Get(Ready(p, c)) => if t == c && Local(input, p, c) then Records(input.dependencies, p, c) else 0
    case Get(Data(p, c)) => if t == c && !Local(input, p, c) then Records(input.dependencies, p, c) else 0
    case Get(LaneFree(p, c)) => if t == c then LaneRecords(input.lanes, p, c) else 0
    case Put(Ready(p, c)) => if t == p then Records(input.dependencies, p, c) else 0
    case Put(Data(p, c)) => 0
    case Put(LaneFree(p, c)) => if t == p then LaneRecords(input.lanes, p, c) else 0
  }

  lemma {:induction false} WaitsCount(input: Input, dependencies: seq<RunnerDependency>, t: Id, x: Instruction)
    ensures multiset(Waits(input, dependencies, t))[x] ==
            match x
            case Get(Ready(p, c)) => if t == c && Local(input, p, c) then Records(dependencies, p, c) else 0
            case Get(Data(p, c)) => if t == c && !Local(input, p, c) then Records(dependencies, p, c) else 0
            case _ => 0
  {
    if dependencies != [] {
      WaitsCount(input, dependencies[..|dependencies| - 1], t, x);
    }
  }

  lemma {:induction false} LaneWaitsCount(lanes: seq<LaneStep>, t: Id, x: Instruction)
    ensures multiset(LaneWaits(lanes, t))[x] ==
            match x
            case Get(LaneFree(p, c)) => if t == c then LaneRecords(lanes, p, c) else 0
            case _ => 0
  {
    if lanes != [] {
      LaneWaitsCount(lanes[..|lanes| - 1], t, x);
    }
  }

  lemma {:induction false} SignalsCount(dependencies: seq<RunnerDependency>, t: Id, x: Instruction)
    ensures multiset(Signals(dependencies, t))[x] ==
            match x
            case Put(Ready(p, c)) => if t == p then Records(dependencies, p, c) else 0
            case _ => 0
  {
    if dependencies != [] {
      SignalsCount(dependencies[..|dependencies| - 1], t, x);
    }
  }

  lemma {:induction false} LaneSignalsCount(lanes: seq<LaneStep>, t: Id, x: Instruction)
    ensures multiset(LaneSignals(lanes, t))[x] ==
            match x
            case Put(LaneFree(p, c)) => if t == p then LaneRecords(lanes, p, c) else 0
            case _ => 0
  {
    if lanes != [] {
      LaneSignalsCount(lanes[..|lanes| - 1], t, x);
    }
  }

  lemma TaskCount(input: Input, t: Id, x: Instruction)
    ensures multiset(TaskProgram(input, t))[x] == Expected(input, t, x)
    ensures multiset(Inbox(input, t))[x] == if x.Get? then Expected(input, t, x) else 0
  {
    WaitsCount(input, input.dependencies, t, x);
    LaneWaitsCount(input.lanes, t, x);
    SignalsCount(input.dependencies, t, x);
    LaneSignalsCount(input.lanes, t, x);
  }

  /** The only task that can execute `x`, unless `x` is `Run` or belongs to transfers. */
  function Owner(x: Instruction): Id
    requires !x.Run?
  {
    match x
    case Get(Ready(_, c)) => c
    case Get(Data(_, c)) => c
    case Get(LaneFree(_, c)) => c
    case Put(Ready(p, _)) => p
    case Put(Data(p, _)) => p
    case Put(LaneFree(p, _)) => p
  }

  lemma NotItsOwner(input: Input, t: Id, x: Instruction)
    requires !x.Run? && t != Owner(x)
    ensures Expected(input, t, x) == 0
  {
  }

  lemma PlannedSnoc(programs: seq<Program>, p: Program, x: Instruction)
    ensures Planned(programs + [p], x) == Planned(programs, x) + multiset(p)[x]
  {
  }

  lemma TaskProgramsSnoc(input: Input, tasks: seq<Id>, t: Id)
    ensures TaskPrograms(input, tasks + [t]) == TaskPrograms(input, tasks) + [TaskProgram(input, t)]
  {
  }

  lemma NoTasksPlanNothing(input: Input, x: Instruction)
    ensures Planned(TaskPrograms(input, []), x) == 0
  {
  }

  lemma {:induction false} PlannedByTasks(input: Input, tasks: seq<Id>, x: Instruction)
    requires Distinct(tasks) && !x.Run?
    ensures Planned(TaskPrograms(input, tasks), x) ==
            if Owner(x) in tasks then Expected(input, Owner(x), x) else 0
  {
    hide *;
    if tasks == [] {
      NoTasksPlanNothing(input, x);
    } else {
      var n := |tasks| - 1;
      var init, t := tasks[..n], tasks[n];
      assert tasks == init + [t];
      DistinctSnoc(init, t);
      PlannedByTasks(input, init, x);
      TaskProgramsSnoc(input, init, t);
      PlannedSnoc(TaskPrograms(input, init), TaskProgram(input, t), x);
      TaskCount(input, t, x);
      if t != Owner(x) {
        NotItsOwner(input, t, x);
      }
    }
  }

  /** How often the transfers of `dependencies` execute `x`. */
  function Moved(input: Input, dependencies: seq<RunnerDependency>, x: Instruction): nat {
    match x
    case Get(Ready(p, c)) => if Local(input, p, c) then 0 else PositiveRecords(dependencies, p, c)
    case Put(Data(p, c)) => if Local(input, p, c) then 0 else PositiveRecords(dependencies, p, c)
    case _ => 0
  }

  lemma MovedSnoc(input: Input, dependencies: seq<RunnerDependency>, d: RunnerDependency, x: Instruction)
    ensures Moved(input, dependencies + [d], x) ==
            Moved(input, dependencies, x) +
            if d.bytes > 0 && !Local(input, d.producer, d.consumer) then multiset(TransferProgram(d))[x] else 0
  {
  }

  lemma TransfersSnoc(input: Input, dependencies: seq<RunnerDependency>, d: RunnerDependency)
    ensures var before := TransferPrograms(Transfers(input, dependencies));
            TransferPrograms(Transfers(input, dependencies + [d])) ==
            if d.bytes > 0 && !Local(input, d.producer, d.consumer) then before + [TransferProgram(d)] else before
  {
    assert (dependencies + [d])[..|dependencies|] == dependencies;
  }

  lemma {:induction false} PlannedByTransfers(input: Input, dependencies: seq<RunnerDependency>, x: Instruction)
    requires !x.Run?
    ensures Planned(TransferPrograms(Transfers(input, dependencies)), x) == Moved(input, dependencies, x)
  {
    if dependencies != [] {
      hide *;
      var n := |dependencies| - 1;
      var init, d := dependencies[..n], dependencies[n];
      assert dependencies == init + [d];
      PlannedByTransfers(input, init, x);
      MovedSnoc(input, init, d, x);
      TransfersSnoc(input, init, d);
      PlannedSnoc(TransferPrograms(Transfers(input, init)), TransferProgram(d), x);
    }
  }

  lemma {:induction false} PlannedAppend(a: seq<Program>, b: seq<Program>, x: Instruction)
    ensures Planned(a + b, x) == Planned(a, x) + Planned(b, x)
  {
    if b == [] {
      assert a + b == a;
    } else {
      assert (a + b)[..|a + b| - 1] == a + b[..|b| - 1];
      PlannedAppend(a, b[..|b| - 1], x);
    }
  }

  /** What all actors together execute. */
  lemma PlannedInAll(input: Input, x: Instruction)
    requires WellFormed(input) && !x.Run?
    ensures Planned(Programs(input), x) ==
            (if Owner(x) in input.tasks then Expected(input, Owner(x), x) else 0) + Moved(input, input.dependencies, x)
  {
    hide Planned, Expected, Moved, Owner, TaskPrograms, TransferPrograms, Transfers;
    PlannedAppend(TaskPrograms(input, input.tasks), TransferPrograms(Transfers(input, input.dependencies)), x);
    PlannedByTasks(input, input.tasks, x);
    PlannedByTransfers(input, input.dependencies, x);
  }

  lemma {:induction false} RecordsBetweenTasks(input: Input, dependencies: seq<RunnerDependency>, p: Id, c: Id)
    requires forall d <- dependencies :: d in input.dependencies
    ensures PositiveRecords(dependencies, p, c) <= Records(dependencies, p, c)
    ensures Records(dependencies, p, c) > 0 ==> exists d <- input.dependencies :: d.producer == p && d.consumer == c
    ensures !Local(input, p, c) && AllMoveBytes(input) ==>
              PositiveRecords(dependencies, p, c) == Records(dependencies, p, c)
  {
    if dependencies != [] {
      var n := |dependencies| - 1;
      assert dependencies[n] in dependencies;
      RecordsBetweenTasks(input, dependencies[..n], p, c);
    }
  }

  lemma {:induction false} LaneRecordsBetweenTasks(input: Input, lanes: seq<LaneStep>, p: Id, c: Id)
    requires forall l <- lanes :: l in input.lanes
    ensures LaneRecords(lanes, p, c) > 0 ==> exists l <- input.lanes :: l.predecessor == p && l.successor == c
  {
    if lanes != [] {
      var n := |lanes| - 1;
      assert lanes[n] in lanes;
      LaneRecordsBetweenTasks(input, lanes[..n], p, c);
    }
  }

  lemma BalancedAt(input: Input, m: Mailbox)
    requires WellFormed(input) && AllMoveBytes(input)
    ensures Planned(Programs(input), Get(m)) == Planned(Programs(input), Put(m))
  {
    hide Programs, Planned, Local;
    PlannedInAll(input, Get(m));
    PlannedInAll(input, Put(m));
    match m {
      case Ready(p, c) => RecordsBetweenTasks(input, input.dependencies, p, c);
      case Data(p, c) => RecordsBetweenTasks(input, input.dependencies, p, c);
      case LaneFree(p, c) => LaneRecordsBetweenTasks(input, input.lanes, p, c);
    }
  }

  /** Moving bytes on every remote dependency balances every mailbox. */
  lemma BytesBalanceMailboxes(input: Input)
    requires WellFormed(input) && AllMoveBytes(input)
    ensures forall m :: Planned(Programs(input), Get(m)) == Planned(Programs(input), Put(m))
  {
    hide *;
    forall m: Mailbox ensures Planned(Programs(input), Get(m)) == Planned(Programs(input), Put(m)) {
      BalancedAt(input, m);
    }
  }

  // ---------- Who executes what ----------

  function Earlier(m: Mailbox): Id {
    match m case Ready(p, _) => p case Data(p, _) => p case LaneFree(p, _) => p
  }

  function Later(m: Mailbox): Id {
    match m case Ready(_, c) => c case Data(_, c) => c case LaneFree(_, c) => c
  }

  /** A task only waits on mailboxes of its own waits. */
  lemma TaskGets(input: Input, t: Id, m: Mailbox)
    requires Get(m) in TaskProgram(input, t)
    ensures Later(m) == t && (Earlier(m), t) in WaitEdges(input)
  {
    TaskCount(input, t, Get(m));
    assert Get(m) in multiset(TaskProgram(input, t));
    RecordsBetweenTasks(input, input.dependencies, Earlier(m), Later(m));
    LaneRecordsBetweenTasks(input, input.lanes, Earlier(m), Later(m));
  }

  /** A task only fills mailboxes that wait for it, and never a data mailbox. */
  lemma TaskPuts(input: Input, t: Id, m: Mailbox)
    requires Put(m) in TaskProgram(input, t)
    ensures Earlier(m) == t && !m.Data?
  {
    TaskCount(input, t, Put(m));
    assert Put(m) in multiset(TaskProgram(input, t));
  }

  lemma {:induction false} TransfersAreDependencies(input: Input, dependencies: seq<RunnerDependency>)
    ensures forall d <- Transfers(input, dependencies) :: d in dependencies
  {
    if dependencies != [] {
      TransfersAreDependencies(input, dependencies[..|dependencies| - 1]);
    }
  }

  /** Actor `j` is a task or a transfer. */
  lemma ActorIs(input: Input, j: nat)
    requires j < |Programs(input)|
    ensures j < |input.tasks| ==> Programs(input)[j] == TaskProgram(input, input.tasks[j])
    ensures j >= |input.tasks| ==>
              var d := Transfers(input, input.dependencies)[j - |input.tasks|];
              Programs(input)[j] == TransferProgram(d) && d in input.dependencies
              && (d.producer, d.consumer) in WaitEdges(input)
  {
    TransfersAreDependencies(input, input.dependencies);
  }

  // ---------- Progress ----------

  /** Tasks sit on even layers, transfers between their producer and their consumer. */
  function Layers(input: Input, rank: map<Id, nat>): seq<nat>
    requires forall t <- input.tasks :: t in rank
    requires forall d <- input.dependencies :: d.producer in rank
  {
    TransfersAreDependencies(input, input.dependencies);
    var transfers := Transfers(input, input.dependencies);
    seq(|input.tasks|, i requires 0 <= i < |input.tasks| => 2 * rank[input.tasks[i]]) +
    seq(|transfers|, i requires 0 <= i < |transfers| => 2 * rank[transfers[i].producer] + 1)
  }

  /** The layer of actor `i`, stated without the programs. */
  lemma LayerOf(input: Input, rank: map<Id, nat>, i: nat)
    requires (forall t <- input.tasks :: t in rank) && forall d <- input.dependencies :: d.producer in rank
    requires i < |Programs(input)|
    ensures |Layers(input, rank)| == |Programs(input)|
    ensures i < |input.tasks| ==> Layers(input, rank)[i] == 2 * rank[input.tasks[i]]
    ensures i >= |input.tasks| ==>
              Transfers(input, input.dependencies)[i - |input.tasks|].producer in rank
              && Layers(input, rank)[i]
              == 2 * rank[Transfers(input, input.dependencies)[i - |input.tasks|].producer] + 1
  {
    TransfersAreDependencies(input, input.dependencies);
  }

  lemma TokensFlowUp(input: Input, rank: map<Id, nat>, i: nat, j: nat, m: Mailbox)
    requires WellFormed(input) && Topological(WaitEdges(input), rank) && forall t <- input.tasks :: t in rank
    requires i < |Programs(input)| && j < |Programs(input)|
    requires Get(m) in Programs(input)[i] && Put(m) in Programs(input)[j]
    ensures |Layers(input, rank)| == |Programs(input)| && Layers(input, rank)[j] < Layers(input, rank)[i]
  {
    hide Layers, Programs, Transfers, TaskProgram;
    ActorIs(input, i);
    ActorIs(input, j);
    LayerOf(input, rank, i);
    LayerOf(input, rank, j);
    if i < |input.tasks| {
      TaskGets(input, input.tasks[i], m);
    }
    if j < |input.tasks| {
      TaskPuts(input, input.tasks[j], m);
    }
  }

  lemma AcyclicIsLayered(input: Input, rank: map<Id, nat>)
    requires WellFormed(input) && Topological(WaitEdges(input), rank) && forall t <- input.tasks :: t in rank
    ensures Layered(Programs(input), Layers(input, rank))
  {
    hide Layers, Programs;
    var programs := Programs(input);
    if programs != [] {
      LayerOf(input, rank, 0);
    } else {
      NoActors(input, rank);
    }
    forall i, j, m | 0 <= i < |programs| && 0 <= j < |programs| && Get(m) in programs[i] && Put(m) in programs[j]
      ensures Layers(input, rank)[j] < Layers(input, rank)[i]
    {
      TokensFlowUp(input, rank, i, j, m);
    }
  }

  lemma NoActors(input: Input, rank: map<Id, nat>)
    requires (forall t <- input.tasks :: t in rank) && forall d <- input.dependencies :: d.producer in rank
    requires Programs(input) == []
    ensures Layers(input, rank) == []
  {
  }

  lemma RankOfTasks(input: Input) returns (rank: map<Id, nat>)
    requires WellFormed(input) && !HasCycle(WaitEdges(input))
    ensures Topological(WaitEdges(input), rank) && forall t <- input.tasks :: t in rank
  {
    rank := AcyclicIsRanked(WaitEdges(input), ToSet(input.tasks));
  }

  /** No interleaving of an acyclic plan that moves bytes ever deadlocks. */
  lemma RunnerNeverDeadlocks(input: Input, schedule: seq<nat>)
    requires WellFormed(input) && !HasCycle(WaitEdges(input)) && AllMoveBytes(input)
    requires Play(Programs(input), schedule).Some?
    ensures !Deadlocked(Programs(input), Play(Programs(input), schedule).value)
    ensures |schedule| <= Work(Programs(input))
  {
    hide Programs, Layers;
    var rank := RankOfTasks(input);
    AcyclicIsLayered(input, rank);
    BytesBalanceMailboxes(input);
    NoDeadlock(Programs(input), schedule, Layers(input, rank));
    RunsAreFinite(Programs(input), schedule);
  }

  /** Every run can be, and if it goes on will be, extended until every actor is done. */
  lemma {:induction false} EveryRunCompletes(input: Input, schedule: seq<nat>) returns (whole: seq<nat>)
    requires WellFormed(input) && !HasCycle(WaitEdges(input)) && AllMoveBytes(input)
    requires Play(Programs(input), schedule).Some?
    ensures schedule <= whole && Play(Programs(input), whole).Some?
    ensures Complete(Programs(input), Play(Programs(input), whole).value)
    decreases Work(Programs(input)) - |schedule|
  {
    hide Programs;
    RunsAreFinite(Programs(input), schedule);
    var s := Play(Programs(input), schedule).value;
    if Complete(Programs(input), s) {
      whole := schedule;
    } else {
      RunnerNeverDeadlocks(input, schedule);
      var i :| Enabled(Programs(input), s, i);
      var longer := schedule + [i];
      assert longer[..|schedule|] == schedule;
      RunsAreFinite(Programs(input), longer);
      whole := EveryRunCompletes(input, longer);
    }
  }
}
