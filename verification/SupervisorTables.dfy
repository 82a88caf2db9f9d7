/**
 The supervisor's tables of running, completed and attempted activities, the histories they
 record, and what such histories mean.
 */
module SupervisorTables {
  import opened Graphs
  import opened Dependencies
  import opened ActivityController

  datatype TaskStatus = TaskRunning | TaskCompleted

  datatype Task = Task(activity: Id, status: TaskStatus)

  /** What happened, in order. */
  datatype Step = Started(id: Id) | Finished(id: Id)

  // ---------- Histories ----------

  /** `step` may happen after `log`: starts wait for their predecessors, and nothing happens twice. */
  ghost predicate MayFollow(dependencies: seq<Dependency>, log: seq<Step>, step: Step) {
    match step
    case Started(id) => Started(id) !in log && forall p <- PredecessorsOf(dependencies, id) :: Finished(p) in log
    case Finished(id) => Started(id) in log && Finished(id) !in log
  }

  ghost predicate InOrder(dependencies: seq<Dependency>, log: seq<Step>) {
    forall i :: 0 <= i < |log| ==> MayFollow(dependencies, log[..i], log[i])
  }

  /** How many activities have started and not finished. */
  function Active(log: seq<Step>): int {
    if log == [] then 0 else
      Active(log[..|log| - 1]) + if log[|log| - 1].Started? then 1 else -1
  }

  /** At no time were more than `limit` activities active. */
  ghost predicate Bounded(log: seq<Step>, limit: nat) {
    forall n :: 0 <= n <= |log| ==> Active(log[..n]) <= limit
  }

  lemma InOrderSnoc(dependencies: seq<Dependency>, log: seq<Step>, step: Step)
    requires InOrder(dependencies, log) && MayFollow(dependencies, log, step)
    ensures InOrder(dependencies, log + [step])
  {
    hide MayFollow;
    var more := log + [step];
    forall i | 0 <= i < |more| ensures MayFollow(dependencies, more[..i], more[i]) {
      assert more[..i] == log[..i];
      assert i == |log| ==> log[..i] == log;
    }
  }

  lemma BoundedSnoc(log: seq<Step>, step: Step, limit: nat)
    requires Bounded(log, limit) && (step.Started? ==> Active(log) < limit)
    ensures Bounded(log + [step], limit)
    ensures Active(log + [step]) == Active(log) + if step.Started? then 1 else -1
  {
    var more := log + [step];
    assert more[..|log|] == log && log[..|log|] == log;
    assert Active(log[..|log|]) <= limit;
    forall n | 0 <= n <= |more| ensures Active(more[..n]) <= limit {
      if n <= |log| {
        assert more[..n] == log[..n];
      } else {
        assert more[..n] == more;
      }
    }
  }

  // ---------- The supervisor's tables ----------

  datatype Setting = Setting(run: Id, activities: set<Id>, dependencies: seq<Dependency>, maxParallel: nat)

  datatype Tables = Tables(running: map<Id, Handle>, completed: map<Id, Task>, tasks: map<Id, Task>)

  function Finish(t: Tables, id: Id): Tables {
    var task := Task(id, TaskCompleted);
    Tables(t.running - {id}, t.completed[id := task], t.tasks[id := task])
  }

  function Begin(t: Tables, id: Id, handle: Handle): Tables {
    t.(running := t.running[id := handle], tasks := t.tasks[id := Task(id, TaskRunning)])
  }

  /** Running and completed activities partition the attempted ones. */
  ghost predicate Partition(running: map<Id, Handle>, completed: map<Id, Task>, tasks: map<Id, Task>) {
    && running.Keys !! completed.Keys
    && running.Keys + completed.Keys == tasks.Keys
    && (forall id <- running :: tasks[id] == Task(id, TaskRunning))
    && (forall id <- completed :: tasks[id] == completed[id] == Task(id, TaskCompleted))
  }

  /** The tables say what happened. */
  ghost predicate Recorded(tasks: map<Id, Task>, completed: map<Id, Task>, log: seq<Step>) {
    && (forall id :: id in tasks <==> Started(id) in log)
    && (forall id :: id in completed <==> Finished(id) in log)
  }

  /** What holds at every point of an execution. */
  ghost predicate Sound(s: Setting, t: Tables, log: seq<Step>) {
    && t.tasks.Keys <= s.activities
    && Partition(t.running, t.completed, t.tasks)
    && Recorded(t.tasks, t.completed, log)
    && InOrder(s.dependencies, log)
    && Bounded(log, s.maxParallel)
    && Active(log) == |t.running|
  }

  lemma FinishKeepsPartition(running: map<Id, Handle>, completed: map<Id, Task>, tasks: map<Id, Task>, id: Id)
    requires Partition(running, completed, tasks) && id in running
    ensures var task := Task(id, TaskCompleted);
            Partition(running - {id}, completed[id := task], tasks[id := task])
  {
  }

  lemma BeginKeepsPartition(
    running: map<Id, Handle>, completed: map<Id, Task>, tasks: map<Id, Task>, id: Id, handle: Handle)
    requires Partition(running, completed, tasks) && id !in tasks
    ensures Partition(running[id := handle], completed, tasks[id := Task(id, TaskRunning)])
  {
  }

  lemma FinishIsRecorded(tasks: map<Id, Task>, completed: map<Id, Task>, log: seq<Step>, id: Id, task: Task)
    requires Recorded(tasks, completed, log) && id in tasks
    ensures Recorded(tasks[id := task], completed[id := task], log + [Finished(id)])
  {
  }

  lemma BeginIsRecorded(tasks: map<Id, Task>, completed: map<Id, Task>, log: seq<Step>, id: Id, task: Task)
    requires Recorded(tasks, completed, log)
    ensures Recorded(tasks[id := task], completed, log + [Started(id)])
  {
  }

  lemma SizeWithout(m: map<Id, Handle>, id: Id)
    requires id in m
    ensures |m - {id}| == |m| - 1
  {
  }

  lemma SizeWith(m: map<Id, Handle>, id: Id, h: Handle)
    requires id !in m
    ensures |m[id := h]| == |m| + 1
  {
  }

  lemma FinishMayFollow(s: Setting, t: Tables, log: seq<Step>, id: Id)
    requires Partition(t.running, t.completed, t.tasks) && Recorded(t.tasks, t.completed, log) && id in t.running
    ensures MayFollow(s.dependencies, log, Finished(id)) && id in t.tasks
  {
  }

  lemma BeginMayFollow(s: Setting, t: Tables, log: seq<Step>, id: Id)
    requires Recorded(t.tasks, t.completed, log) && id !in t.tasks
    requires forall p <- PredecessorsOf(s.dependencies, id) :: p in t.completed
    ensures MayFollow(s.dependencies, log, Started(id))
  {
  }

  lemma FinishIsSound(s: Setting, t: Tables, log: seq<Step>, id: Id)
    requires Sound(s, t, log)
    ensures id in t.running ==> Sound(s, Finish(t, id), log + [Finished(id)])
  {
    hide InOrder, Bounded, Active, Partition, Recorded, MayFollow;
    if id in t.running {
      FinishMayFollow(s, t, log, id);
      FinishKeepsPartition(t.running, t.completed, t.tasks, id);
      FinishIsRecorded(t.tasks, t.completed, log, id, Task(id, TaskCompleted));
      SizeWithout(t.running, id);
      InOrderSnoc(s.dependencies, log, Finished(id));
      BoundedSnoc(log, Finished(id), s.maxParallel);
    }
  }

  lemma BeginIsSound(s: Setting, t: Tables, log: seq<Step>, id: Id, handle: Handle)
    requires Sound(s, t, log) && id in s.activities && id !in t.tasks && |t.running| < s.maxParallel
    requires forall p <- PredecessorsOf(s.dependencies, id) :: p in t.completed
    ensures Sound(s, Begin(t, id, handle), log + [Started(id)])
  {
    hide InOrder, Bounded, Active, Recorded, MayFollow;
    BeginMayFollow(s, t, log, id);
    BeginKeepsPartition(t.running, t.completed, t.tasks, id, handle);
    BeginIsRecorded(t.tasks, t.completed, log, id, Task(id, TaskRunning));
    SizeWith(t.running, id, handle);
    InOrderSnoc(s.dependencies, log, Started(id));
    BoundedSnoc(log, Started(id), s.maxParallel);
  }

  // ---------- When an execution cannot complete ----------

  /** What the remaining activities wait for among themselves. */
  function WaitsAmong(dependencies: seq<Dependency>, ids: set<Id>): Edges {
    Among(DependencyEdges(dependencies), ids)
  }

  /** One of `ids` depends on something that is not an activity. */
  ghost predicate DependsOutside(s: Setting, ids: set<Id>) {
    exists id <- ids, p <- PredecessorsOf(s.dependencies, id) :: p !in s.activities
  }

  /** The activities that have not completed can never all complete. */
  ghost predicate Hopeless(s: Setting, completed: set<Id>) {
    DependsOutside(s, s.activities - completed) || HasCycle(WaitsAmong(s.dependencies, s.activities - completed))
  }

  lemma NothingReadyIsHopeless(s: Setting, completed: set<Id>)
    requires completed < s.activities
    requires forall id <- s.activities - completed :: exists p <- PredecessorsOf(s.dependencies, id) :: p !in completed
    ensures Hopeless(s, completed)
  {
    var rest := s.activities - completed;
    if !DependsOutside(s, rest) {
      forall x <- rest ensures WaitsIn(WaitsAmong(s.dependencies, rest), rest, x) {
        var p :| p in PredecessorsOf(s.dependencies, x) && p !in completed;
        assert p in s.activities;
        PredecessorsAreEdges(s.dependencies, x);
        assert (p, x) in WaitsAmong(s.dependencies, rest);
      }
      var left :| left in s.activities && left !in completed;
      assert left in rest;
      StuckHasCycle(WaitsAmong(s.dependencies, rest), rest);
    }
  }

  // ---------- What the histories mean ----------

  ghost function StartedIds(log: seq<Step>): set<Id> {
    set step <- log | step.Started? :: step.id
  }

  ghost function FinishedIds(log: seq<Step>): set<Id> {
    set step <- log | step.Finished? :: step.id
  }

  lemma IdsSnoc(log: seq<Step>)
    requires log != []
    ensures var n := |log| - 1;
            match log[n]
            case Started(id) =>
              StartedIds(log) == StartedIds(log[..n]) + {id} && FinishedIds(log) == FinishedIds(log[..n])
            case Finished(id) =>
              FinishedIds(log) == FinishedIds(log[..n]) + {id} && StartedIds(log) == StartedIds(log[..n])
  {
  }

  /** A history numbers what finished so that all predecessors come first. */
  lemma {:induction false} HistoryRanks(dependencies: seq<Dependency>, log: seq<Step>) returns (rank: map<Id, nat>)
    requires InOrder(dependencies, log)
    ensures Graphs.Finished(DependencyEdges(dependencies), FinishedIds(log), rank)
  {
    if log == [] {
      return map[];
    }
    var n := |log| - 1;
    IdsSnoc(log);
    InOrderPrefix(dependencies, log, n);
    hide FinishedIds, StartedIds, InOrder, MayFollow, DependencyEdges;
    rank := HistoryRanks(dependencies, log[..n]);
    match log[n]
    case Started(_) =>
    case Finished(id) =>
      FinishedAfterPredecessors(dependencies, log, n);
      FinishNext(DependencyEdges(dependencies), FinishedIds(log[..n]), rank, id);
      rank := rank[id := |FinishedIds(log[..n])|];
  }

  lemma InOrderPrefix(dependencies: seq<Dependency>, log: seq<Step>, n: nat)
    requires InOrder(dependencies, log) && n <= |log|
    ensures InOrder(dependencies, log[..n])
  {
    hide MayFollow;
    forall i | 0 <= i < n ensures MayFollow(dependencies, log[..n][..i], log[..n][i]) {
      assert log[..n][..i] == log[..i];
    }
  }

  lemma FinishedAfterPredecessors(dependencies: seq<Dependency>, log: seq<Step>, n: nat)
    requires InOrder(dependencies, log) && n < |log| && log[n].Finished?
    ensures log[n].id !in FinishedIds(log[..n])
    ensures forall e <- DependencyEdges(dependencies) :: e.1 == log[n].id ==> e.0 in FinishedIds(log[..n])
  {
    var id := log[n].id;
    assert MayFollow(dependencies, log[..n], log[n]);
    var i :| 0 <= i < n && log[i] == Started(id);
    assert MayFollow(dependencies, log[..i], log[i]);
    PredecessorsAreEdges(dependencies, id);
    forall e <- DependencyEdges(dependencies) | e.1 == id ensures e.0 in FinishedIds(log[..n]) {
      assert e == (e.0, id);
      assert Finished(e.0) in log[..i];
      assert Finished(e.0) in log[..n];
    }
  }

  /** An execution that completes shows that its activities were well-founded: it was never hopeless. */
  lemma CompletionMeansWellFounded(s: Setting, t: Tables, log: seq<Step>, completed: set<Id>)
    requires Sound(s, t, log) && t.completed.Keys == s.activities
    ensures !Hopeless(s, completed)
  {
    var rest := s.activities - completed;
    var edges := WaitsAmong(s.dependencies, rest);
    var rank := HistoryRanks(s.dependencies, log);
    assert FinishedIds(log) == s.activities by {
      FinishedIdsAreCompleted(t, log);
    }
    assert Topological(edges, rank);
    RankedIsAcyclic(edges, rank);
    forall id <- rest, p <- PredecessorsOf(s.dependencies, id) ensures p in s.activities {
      PredecessorsAreEdges(s.dependencies, id);
      assert (p, id) in DependencyEdges(s.dependencies);
    }
  }

  lemma FinishedIdsAreCompleted(t: Tables, log: seq<Step>)
    requires Recorded(t.tasks, t.completed, log)
    ensures FinishedIds(log) == t.completed.Keys
  {
  }

  /** Nothing happens twice, and every start comes after the finish of each predecessor. */
  lemma HistoryIsOrdered(dependencies: seq<Dependency>, log: seq<Step>, i: nat, j: nat)
    requires InOrder(dependencies, log) && i < j < |log|
    ensures log[i] != log[j]
    ensures forall e <- DependencyEdges(dependencies) :: log[j] == Started(e.1) ==> Finished(e.0) in log[..j]
    ensures log[i].Finished? ==> log[j] != Started(log[i].id)
  {
    assert MayFollow(dependencies, log[..j], log[j]);
    assert MayFollow(dependencies, log[..i], log[i]);
    assert log[..j][i] == log[i];
    if log[i].Finished? {
      assert forall step <- log[..i] :: step in log[..j];
    }
    forall e <- DependencyEdges(dependencies) | log[j] == Started(e.1) ensures Finished(e.0) in log[..j] {
      PredecessorsAreEdges(dependencies, e.1);
      assert e == (e.0, e.1);
    }
  }

  /** The number the parallelism limit bounds is the number of activities that started and did not finish. */
  lemma {:induction false} ActiveCounts(dependencies: seq<Dependency>, log: seq<Step>)
    requires InOrder(dependencies, log)
    ensures FinishedIds(log) <= StartedIds(log)
    ensures Active(log) == |StartedIds(log) - FinishedIds(log)|
  {
    if log != [] {
      var n := |log| - 1;
      var before := log[..n];
      InOrderPrefix(dependencies, log, n);
      ActiveCounts(dependencies, before);
      IdsSnoc(log);
      StepIsNew(dependencies, log);
      hide StartedIds, FinishedIds, InOrder, MayFollow;
      OneMoreOrLess(StartedIds(before), FinishedIds(before), log[n].id);
    }
  }

  lemma OneMoreOrLess(a: set<Id>, b: set<Id>, id: Id)
    requires b <= a
    ensures id !in a ==> |a + {id} - b| == |a - b| + 1
    ensures id in a && id !in b ==> |a - (b + {id})| == |a - b| - 1
  {
  }

  lemma StepIsNew(dependencies: seq<Dependency>, log: seq<Step>)
    requires InOrder(dependencies, log) && log != []
    ensures var before := log[..|log| - 1];
            match log[|log| - 1]
            case Started(id) => id !in StartedIds(before)
            case Finished(id) => id in StartedIds(before) && id !in FinishedIds(before)
  {
  }
}
