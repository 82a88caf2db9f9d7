/** When tasks of the SimGrid runner may execute, and when they never will. */
module RunnerSafety {
  import opened Graphs
  import opened Mailboxes
  import opened Runner

  /** Task `id` has taken all its tokens. */
  ghost predicate MayRun(input: Input, s: State, id: Id)
    requires Fits(Programs(input), s)
  {
    exists k :: 0 <= k < |input.tasks| && input.tasks[k] == id && s.pcs[k] >= |Inbox(input, id)|
  }

  /** Task `id` has executed. */
  ghost predicate HasRun(input: Input, s: State, id: Id)
    requires Fits(Programs(input), s)
  {
    exists k :: 0 <= k < |input.tasks| && input.tasks[k] == id && s.pcs[k] > |Inbox(input, id)|
  }

  lemma {:induction false} RecordsOf(dependencies: seq<RunnerDependency>, d: RunnerDependency)
    requires d in dependencies
    ensures Records(dependencies, d.producer, d.consumer) > 0
    ensures d.bytes <= 0 ==> PositiveRecords(dependencies, d.producer, d.consumer)
                             < Records(dependencies, d.producer, d.consumer)
  {
    var n := |dependencies| - 1;
    PositiveAreRecords(dependencies[..n], d.producer, d.consumer);
    if d != dependencies[n] {
      RecordsOf(dependencies[..n], d);
    }
  }

  lemma PositiveAreRecords(dependencies: seq<RunnerDependency>, p: Id, c: Id)
    ensures PositiveRecords(dependencies, p, c) <= Records(dependencies, p, c)
  {
  }

  lemma {:induction false} LaneRecordsOf(lanes: seq<LaneStep>, l: LaneStep)
    requires l in lanes
    ensures LaneRecords(lanes, l.predecessor, l.successor) > 0
  {
    var n := |lanes| - 1;
    if l != lanes[n] {
      LaneRecordsOf(lanes[..n], l);
    }
  }

  /** Behind every wait there is a token to take. */
  lemma WaitIsInInbox(input: Input, e: (Id, Id)) returns (m: Mailbox)
    requires e in WaitEdges(input)
    ensures Earlier(m) == e.0 && Later(m) == e.1 && Get(m) in Inbox(input, e.1)
    ensures m.Data? ==> !Local(input, e.0, e.1)
  {
    if d :| d in input.dependencies && (d.producer, d.consumer) == e {
      RecordsOf(input.dependencies, d);
      m := if Local(input, e.0, e.1) then Ready(e.0, e.1) else Data(e.0, e.1);
    } else {
      var l :| l in input.lanes && (l.predecessor, l.successor) == e;
      LaneRecordsOf(input.lanes, l);
      m := LaneFree(e.0, e.1);
    }
    TaskCount(input, e.1, Get(m));
    assert Get(m) in multiset(Inbox(input, e.1));
  }

  /** A task that has signalled has executed. */
  lemma SignalledHasRun(input: Input, s: State, j: nat, m: Mailbox)
    requires Fits(Programs(input), s) && j < |Programs(input)| && !m.Data?
    requires Put(m) in Programs(input)[j][..s.pcs[j]]
    ensures HasRun(input, s, Earlier(m))
  {
    ActorIs(input, j);
    assert Put(m) in Programs(input)[j];
    if j < |input.tasks| {
      SignalsComeAfter(input, input.tasks[j], m, s.pcs[j]);
    }
  }

  /** A task signals only after it has executed. */
  lemma SignalsComeAfter(input: Input, t: Id, m: Mailbox, n: nat)
    requires n <= |TaskProgram(input, t)| && Put(m) in TaskProgram(input, t)[..n]
    ensures Earlier(m) == t && n > |Inbox(input, t)|
  {
    TaskPuts(input, t, m);
    TaskCount(input, t, Put(m));
    InboxFirst(input, t);
    hide *;
    NotInPrefix(Inbox(input, t), TaskProgram(input, t), n, Put(m));
  }

  lemma NotInPrefix(inbox: Program, program: Program, n: nat, x: Instruction)
    requires inbox <= program && n <= |program| && x in program[..n] && multiset(inbox)[x] == 0
    ensures n > |inbox|
  {
  }

  /** A data token comes from a transfer, which had taken the producer's signal. */
  lemma DeliveredWasSignalled(input: Input, s: State, j: nat, p: Id, c: Id)
    requires Fits(Programs(input), s) && j < |Programs(input)|
    requires Put(Data(p, c)) in Programs(input)[j][..s.pcs[j]]
    ensures Get(Ready(p, c)) in Programs(input)[j][..s.pcs[j]]
  {
    ActorIs(input, j);
    var program := Programs(input)[j];
    assert Put(Data(p, c)) in program;
    if j < |input.tasks| {
      TaskPuts(input, input.tasks[j], Data(p, c));
    } else {
      var k :| 0 <= k < s.pcs[j] && program[k] == Put(Data(p, c));
      assert k == 1 && program[0] == Get(Ready(p, c));
      assert program[..s.pcs[j]][0] == Get(Ready(p, c));
    }
  }

  /**
   Safety: in every interleaving, a task is ready to execute only after all its producers and
   its lane predecessors have executed.
   */
  lemma ExecutesAfterItsWaits(input: Input, schedule: seq<nat>, e: (Id, Id))
    requires Play(Programs(input), schedule).Some? && e in WaitEdges(input)
    requires MayRun(input, Play(Programs(input), schedule).value, e.1)
    ensures HasRun(input, Play(Programs(input), schedule).value, e.0)
  {
    hide WaitEdges, HasRun;
    var programs, s := Programs(input), Play(Programs(input), schedule).value;
    var k :| 0 <= k < |input.tasks| && input.tasks[k] == e.1 && s.pcs[k] >= |Inbox(input, e.1)|;
    var m := WaitIsInInbox(input, e);
    ActorIs(input, k);
    hide Programs, Inbox;
    assert Get(m) in programs[k][..s.pcs[k]] by {
      TokensTaken(input, s, k, Get(m));
    }
    var j := TakenWasPut(programs, schedule, k, m);
    if m.Data? {
      DeliveredWasSignalled(input, s, j, e.0, e.1);
      var i := TakenWasPut(programs, schedule, j, Ready(e.0, e.1));
      SignalledHasRun(input, s, i, Ready(e.0, e.1));
    } else {
      SignalledHasRun(input, s, j, m);
    }
  }

  lemma TokensTaken(input: Input, s: State, k: nat, x: Instruction)
    requires Fits(Programs(input), s) && k < |input.tasks| && s.pcs[k] >= |Inbox(input, input.tasks[k])|
    requires x in Inbox(input, input.tasks[k])
    ensures x in Programs(input)[k][..s.pcs[k]]
  {
    ActorIs(input, k);
    var inbox := Inbox(input, input.tasks[k]);
    var i :| 0 <= i < |inbox| && inbox[i] == x;
    assert Programs(input)[k][..s.pcs[k]][i] == x;
  }

  // ---------- When a plan never completes ----------

  /** Executing takes a move from a state in which the task was ready to execute. */
  lemma BecomesRun(input: Input, s: State, i: nat, id: Id)
    requires Fits(Programs(input), s) && Enabled(Programs(input), s, i)
    requires HasRun(input, Step(Programs(input), s, i), id)
    ensures MayRun(input, s, id)
  {
  }

  lemma NothingRanYet(input: Input, id: Id)
    ensures !HasRun(input, Initial(Programs(input)), id)
  {
  }

  /** Tasks that wait for each other never execute, in any interleaving. */
  lemma {:induction false} StuckNeverRuns(input: Input, stuck: set<Id>, schedule: seq<nat>, id: Id)
    requires Stuck(WaitEdges(input), stuck) && id in stuck && Play(Programs(input), schedule).Some?
    ensures !HasRun(input, Play(Programs(input), schedule).value, id)
  {
    hide Programs, WaitEdges, HasRun, MayRun;
    if schedule == [] {
      NothingRanYet(input, id);
    } else if HasRun(input, Play(Programs(input), schedule).value, id) {
      var n := |schedule| - 1;
      BecomesRun(input, Play(Programs(input), schedule[..n]).value, schedule[n], id);
      assert WaitsIn(WaitEdges(input), stuck, id);
      var y :| y in stuck && (y, id) in WaitEdges(input);
      ExecutesAfterItsWaits(input, schedule[..n], (y, id));
      StuckNeverRuns(input, stuck, schedule[..n], y);
    }
  }

  /** No more data tokens are put than there are records that move bytes. */
  lemma DataTokensBound(input: Input, s: State, p: Id, c: Id)
    requires WellFormed(input) && Fits(Programs(input), s) && !Local(input, p, c)
    ensures Executed(Programs(input), s.pcs, Put(Data(p, c))) <= PositiveRecords(input.dependencies, p, c)
  {
    hide Programs, Planned, Executed, Local, PositiveRecords;
    ExecutedBound(Programs(input), s.pcs, Put(Data(p, c)));
    PlannedInAll(input, Put(Data(p, c)));
  }

  /** A task that is ready to execute has taken a data token for each of its remote records. */
  lemma DataTokensTaken(input: Input, s: State, p: Id, c: Id)
    requires Fits(Programs(input), s) && !Local(input, p, c) && MayRun(input, s, c)
    ensures Executed(Programs(input), s.pcs, Get(Data(p, c))) >= Records(input.dependencies, p, c)
  {
    var k :| 0 <= k < |input.tasks| && input.tasks[k] == c && s.pcs[k] >= |Inbox(input, c)|;
    AllTokensTaken(input, s, k, Get(Data(p, c)));
    ExecutedAtLeast(Programs(input), s.pcs, Get(Data(p, c)), k);
  }

  /** A consumer of a remote dependency without bytes never executes. */
  lemma StarvedNeverRuns(input: Input, schedule: seq<nat>, d: RunnerDependency)
    requires WellFormed(input) && Play(Programs(input), schedule).Some?
    requires d in input.dependencies && !Local(input, d.producer, d.consumer) && d.bytes <= 0
    ensures !MayRun(input, Play(Programs(input), schedule).value, d.consumer)
  {
    hide Programs, MayRun, WellFormed, Local, Executed, PositiveRecords, Records, Play;
    var s := Play(Programs(input), schedule).value;
    RecordsOf(input.dependencies, d);
    DataTokensBound(input, s, d.producer, d.consumer);
    RunConserves(Programs(input), schedule);
    if MayRun(input, s, d.consumer) {
      DataTokensTaken(input, s, d.producer, d.consumer);
    }
  }

  lemma AllTokensTaken(input: Input, s: State, k: nat, x: Instruction)
    requires Fits(Programs(input), s) && k < |input.tasks| && s.pcs[k] >= |Inbox(input, input.tasks[k])| && x.Get?
    ensures multiset(Programs(input)[k][..s.pcs[k]])[x] >= Expected(input, input.tasks[k], x)
  {
    ActorIs(input, k);
    TaskCount(input, input.tasks[k], x);
    InboxFirst(input, input.tasks[k]);
    hide *;
    PrefixCounts(Inbox(input, input.tasks[k]), Programs(input)[k], s.pcs[k], x);
  }

  lemma InboxFirst(input: Input, t: Id)
    ensures Inbox(input, t) <= TaskProgram(input, t)
  {
  }

  lemma PrefixCounts(inbox: Program, program: Program, n: nat, x: Instruction)
    requires inbox <= program && |inbox| <= n <= |program|
    ensures multiset(program[..n])[x] >= multiset(inbox)[x]
  {
    assert program[..n] == inbox + program[|inbox|..n];
  }

  /** Some interleaving of the actors carries the whole input out. */
  ghost predicate CanComplete(input: Input) {
    exists schedule :: Play(Programs(input), schedule).Some?
                       && Complete(Programs(input), Play(Programs(input), schedule).value)
  }

  /** All of a run is done exactly for plans without cycles whose remote dependencies move bytes. */
  lemma CompletesExactlyWhen(input: Input)
    requires WellFormed(input)
    ensures CanComplete(input) <==> !HasCycle(WaitEdges(input)) && AllMoveBytes(input)
  {
    hide Programs, WaitEdges;
    if !HasCycle(WaitEdges(input)) && AllMoveBytes(input) {
      var whole := EveryRunCompletes(input, []);
    }
    forall schedule | Play(Programs(input), schedule).Some?
                      && Complete(Programs(input), Play(Programs(input), schedule).value)
      ensures !HasCycle(WaitEdges(input)) && AllMoveBytes(input)
    {
      CompletedRunIsSound(input, schedule);
    }
  }

  lemma CompletedRunIsSound(input: Input, schedule: seq<nat>)
    requires WellFormed(input) && Play(Programs(input), schedule).Some?
    requires Complete(Programs(input), Play(Programs(input), schedule).value)
    ensures !HasCycle(WaitEdges(input)) && AllMoveBytes(input)
  {
    var s := Play(Programs(input), schedule).value;
    forall t <- input.tasks ensures HasRun(input, s, t) && MayRun(input, s, t) {
      CompletedTaskRan(input, s, t);
    }
    hide Programs, HasRun, MayRun;
    forall d <- input.dependencies | !Local(input, d.producer, d.consumer) ensures d.bytes > 0 {
      if d.bytes <= 0 {
        StarvedNeverRuns(input, schedule, d);
      }
    }
    if c :| IsCycle(WaitEdges(input), c) {
      CycleIsStuck(WaitEdges(input), c);
      assert Hop(WaitEdges(input), c, 1);
      StuckNeverRuns(input, ToSet(c), schedule, c[0]);
    }
  }

  lemma CompletedTaskRan(input: Input, s: State, t: Id)
    requires Fits(Programs(input), s) && Complete(Programs(input), s) && t in input.tasks
    ensures HasRun(input, s, t) && MayRun(input, s, t)
  {
  }

  /** At the end no mailbox holds a token, so every blocking send of a transfer has been received. */
  lemma NothingIsLeftOver(input: Input, schedule: seq<nat>)
    requires WellFormed(input) && Play(Programs(input), schedule).Some?
    requires Complete(Programs(input), Play(Programs(input), schedule).value)
    ensures Play(Programs(input), schedule).value.boxes == multiset{}
  {
    CompletedRunIsSound(input, schedule);
    hide Programs;
    var s := Play(Programs(input), schedule).value;
    BytesBalanceMailboxes(input);
    RunConserves(Programs(input), schedule);
    forall m ensures s.boxes[m] == 0 {
      AllExecuted(Programs(input), s.pcs, Get(m));
      AllExecuted(Programs(input), s.pcs, Put(m));
    }
  }
}
