/**
 Actors that run straight-line programs over mailboxes.  A `Put` never blocks, a `Get`
 blocks until a token is in its mailbox.  The scheduler may interleave actors in any way.
 */
module Mailboxes {
  import opened Graphs
  import opened Outcomes

  datatype Mailbox =
    | Ready(producer: Id, consumer: Id)
    | Data(producer: Id, consumer: Id)
    | LaneFree(predecessor: Id, successor: Id)

  datatype Instruction = Get(box: Mailbox) | Put(box: Mailbox) | Run

  type Program = seq<Instruction>

  /** Where each actor stands, and the tokens that have been put and not yet taken. */
  datatype State = State(pcs: seq<nat>, boxes: multiset<Mailbox>)

  function Initial(programs: seq<Program>): State {
    State(seq(|programs|, _ => 0), multiset{})
  }

  predicate Fits(programs: seq<Program>, s: State) {
    |s.pcs| == |programs| && forall i :: 0 <= i < |programs| ==> s.pcs[i] <= |programs[i]|
  }

  predicate Enabled(programs: seq<Program>, s: State, i: nat)
    requires Fits(programs, s)
  {
    && i < |programs|
    && s.pcs[i] < |programs[i]|
    && (programs[i][s.pcs[i]].Get? ==> programs[i][s.pcs[i]].box in s.boxes)
  }

  function Step(programs: seq<Program>, s: State, i: nat): (t: State)
    requires Fits(programs, s) && Enabled(programs, s, i)
    ensures Fits(programs, t)
  {
    var boxes := match programs[i][s.pcs[i]]
                 case Get(box) => s.boxes - multiset{box}
                 case Put(box) => s.boxes + multiset{box}
                 case Run => s.boxes;
    State(s.pcs[i := s.pcs[i] + 1], boxes)
  }

  /** The state after letting the actors in `schedule` move one after the other, if each of them can. */
  ghost function Play(programs: seq<Program>, schedule: seq<nat>): (r: Option<State>)
    ensures r.Some? ==> Fits(programs, r.value)
  {
    if schedule == [] then Some(Initial(programs)) else
      var n := |schedule| - 1;
      var before := Play(programs, schedule[..n]);
      if before.Some? && Enabled(programs, before.value, schedule[n])
      then Some(Step(programs, before.value, schedule[n]))
      else None
  }

  predicate Complete(programs: seq<Program>, s: State)
    requires Fits(programs, s)
  {
    forall i :: 0 <= i < |programs| ==> s.pcs[i] == |programs[i]|
  }

  ghost predicate Deadlocked(programs: seq<Program>, s: State)
    requires Fits(programs, s)
  {
    !Complete(programs, s) && forall i :: !Enabled(programs, s, i)
  }

  // ---------- Tokens are conserved ----------

  /** How often `x` has been executed when the actors stand at `pcs`. */
  ghost function Executed(programs: seq<Program>, pcs: seq<nat>, x: Instruction): nat
    requires Fits(programs, State(pcs, multiset{}))
  {
    if programs == [] then 0 else
      var n := |programs| - 1;
      Executed(programs[..n], pcs[..n], x) + multiset(programs[n][..pcs[n]])[x]
  }

  ghost function Planned(programs: seq<Program>, x: Instruction): nat {
    if programs == [] then 0 else
      Planned(programs[..|programs| - 1], x) + multiset(programs[|programs| - 1])[x]
  }

  lemma {:induction false} ExecutedUpdate(programs: seq<Program>, pcs: seq<nat>, i: nat, x: Instruction)
    requires Fits(programs, State(pcs, multiset{})) && i < |programs| && pcs[i] < |programs[i]|
    ensures Executed(programs, pcs[i := pcs[i] + 1], x) ==
            Executed(programs, pcs, x) + if programs[i][pcs[i]] == x then 1 else 0
  {
    var n := |programs| - 1;
    var after := pcs[i := pcs[i] + 1];
    if i < n {
      assert after[..n] == pcs[..n][i := pcs[..n][i] + 1];
      ExecutedUpdate(programs[..n], pcs[..n], i, x);
    } else {
      assert after[..n] == pcs[..n];
      CountNext(programs[n], pcs[n], x);
    }
  }

  lemma CountNext(program: Program, k: nat, x: Instruction)
    requires k < |program|
    ensures multiset(program[..k + 1])[x] == multiset(program[..k])[x] + if program[k] == x then 1 else 0
  {
    assert program[..k + 1] == program[..k] + [program[k]];
  }

  ghost predicate Conserved(programs: seq<Program>, s: State)
    requires Fits(programs, s)
  {
    forall m :: s.boxes[m] + Executed(programs, s.pcs, Get(m)) == Executed(programs, s.pcs, Put(m))
  }

  lemma {:induction false} NothingExecuted(programs: seq<Program>, x: Instruction)
    ensures Executed(programs, Initial(programs).pcs, x) == 0
  {
    if programs != [] {
      var n := |programs| - 1;
      assert Initial(programs).pcs[..n] == Initial(programs[..n]).pcs;
      NothingExecuted(programs[..n], x);
    }
  }

  lemma StepConserves(programs: seq<Program>, s: State, i: nat)
    requires Fits(programs, s) && Enabled(programs, s, i) && Conserved(programs, s)
    ensures Conserved(programs, Step(programs, s, i))
  {
    hide Executed;
    var t := Step(programs, s, i);
    forall m ensures t.boxes[m] + Executed(programs, t.pcs, Get(m)) == Executed(programs, t.pcs, Put(m)) {
      ExecutedUpdate(programs, s.pcs, i, Get(m));
      ExecutedUpdate(programs, s.pcs, i, Put(m));
    }
  }

  /** In every run, tokens taken plus tokens waiting are tokens put. */
  lemma {:induction false} RunConserves(programs: seq<Program>, schedule: seq<nat>)
    requires Play(programs, schedule).Some?
    ensures Conserved(programs, Play(programs, schedule).value)
  {
    if schedule == [] {
      var s := Initial(programs);
      forall m ensures s.boxes[m] + Executed(programs, s.pcs, Get(m)) == Executed(programs, s.pcs, Put(m)) {
        NothingExecuted(programs, Get(m));
        NothingExecuted(programs, Put(m));
      }
    } else {
      var n := |schedule| - 1;
      RunConserves(programs, schedule[..n]);
      StepConserves(programs, Play(programs, schedule[..n]).value, schedule[n]);
    }
  }

  // ---------- Runs are finite ----------

  function Work(programs: seq<Program>): nat {
    if programs == [] then 0 else Work(programs[..|programs| - 1]) + |programs[|programs| - 1]|
  }

  function Moves(pcs: seq<nat>): nat {
    if pcs == [] then 0 else Moves(pcs[..|pcs| - 1]) + pcs[|pcs| - 1]
  }

  lemma {:induction false} MovesUpdate(pcs: seq<nat>, i: nat)
    requires i < |pcs|
    ensures Moves(pcs[i := pcs[i] + 1]) == Moves(pcs) + 1
  {
    var n := |pcs| - 1;
    var after := pcs[i := pcs[i] + 1];
    if i < n {
      assert after[..n] == pcs[..n][i := pcs[..n][i] + 1];
      MovesUpdate(pcs[..n], i);
    } else {
      assert after[..n] == pcs[..n];
    }
  }

  lemma {:induction false} MovesBound(programs: seq<Program>, s: State)
    requires Fits(programs, s)
    ensures Moves(s.pcs) <= Work(programs)
  {
    if programs != [] {
      var n := |programs| - 1;
      MovesBound(programs[..n], State(s.pcs[..n], s.boxes));
    }
  }

  lemma {:induction false} NoMoves(n: nat)
    ensures Moves(seq(n, _ => 0)) == 0
  {
    if n > 0 {
      var s: seq<nat> := seq(n, _ => 0);
      assert s[..n - 1] == seq(n - 1, _ => 0);
      NoMoves(n - 1);
    }
  }

  /** No interleaving makes more moves than the programs have instructions. */
  lemma {:induction false} RunsAreFinite(programs: seq<Program>, schedule: seq<nat>)
    requires Play(programs, schedule).Some?
    ensures |schedule| == Moves(Play(programs, schedule).value.pcs) <= Work(programs)
  {
    if schedule == [] {
      NoMoves(|programs|);
    } else {
      var n := |schedule| - 1;
      RunsAreFinite(programs, schedule[..n]);
      MovesUpdate(Play(programs, schedule[..n]).value.pcs, schedule[n]);
    }
    MovesBound(programs, Play(programs, schedule).value);
  }

  // ---------- Deadlock freedom ----------

  /** Each mailbox is filled at least as often as it is emptied. */
  ghost predicate Supplied(programs: seq<Program>) {
    forall m :: Planned(programs, Get(m)) <= Planned(programs, Put(m))
  }

  /** Actors can be layered so that tokens only flow upwards. */
  ghost predicate Layered(programs: seq<Program>, rank: seq<nat>) {
    && |rank| == |programs|
    && forall i, j, m {:trigger Get(m) in programs[i], Put(m) in programs[j]} ::
         0 <= i < |programs| && 0 <= j < |programs| && Get(m) in programs[i] && Put(m) in programs[j] ==>
           rank[j] < rank[i]
  }

  lemma {:induction false} ExecutedBound(programs: seq<Program>, pcs: seq<nat>, x: Instruction)
    requires Fits(programs, State(pcs, multiset{}))
    ensures Executed(programs, pcs, x) <= Planned(programs, x)
  {
    if programs != [] {
      var n := |programs| - 1;
      ExecutedBound(programs[..n], pcs[..n], x);
      assert programs[n] == programs[n][..pcs[n]] + programs[n][pcs[n]..];
    }
  }

  /** When all actors that execute `x` have finished, all of `x` has been executed. */
  lemma {:induction false} AllExecuted(programs: seq<Program>, pcs: seq<nat>, x: Instruction)
    requires Fits(programs, State(pcs, multiset{}))
    requires forall j :: 0 <= j < |programs| && x in programs[j] ==> pcs[j] == |programs[j]|
    ensures Executed(programs, pcs, x) == Planned(programs, x)
  {
    if programs != [] {
      var n := |programs| - 1;
      AllExecuted(programs[..n], pcs[..n], x);
      assert programs[n] == programs[n][..pcs[n]] + programs[n][pcs[n]..];
    }
  }

  /** An actor about to execute `x` leaves some of `x` to be executed. */
  lemma {:induction false} SomeLeft(programs: seq<Program>, pcs: seq<nat>, x: Instruction, i: nat)
    requires Fits(programs, State(pcs, multiset{}))
    requires i < |programs| && pcs[i] < |programs[i]| && programs[i][pcs[i]] == x
    ensures Executed(programs, pcs, x) < Planned(programs, x)
  {
    var n := |programs| - 1;
    assert programs[n] == programs[n][..pcs[n]] + programs[n][pcs[n]..];
    if i < n {
      SomeLeft(programs[..n], pcs[..n], x, i);
    } else {
      ExecutedBound(programs[..n], pcs[..n], x);
      assert programs[n] == programs[n][..pcs[n]] + [x] + programs[n][pcs[n] + 1..];
    }
  }

  /** Some unfinished actor has the lowest layer of all unfinished ones. */
  lemma LowestUnfinished(programs: seq<Program>, s: State, rank: seq<nat>, k: nat) returns (i: nat)
    requires Fits(programs, s) && |rank| == |programs| && k < |programs| && s.pcs[k] < |programs[k]|
    ensures i < |programs| && s.pcs[i] < |programs[i]|
    ensures forall j :: 0 <= j < |programs| && s.pcs[j] < |programs[j]| ==> rank[i] <= rank[j]
    decreases rank[k]
  {
    if j :| 0 <= j < |programs| && s.pcs[j] < |programs[j]| && rank[j] < rank[k] {
      i := LowestUnfinished(programs, s, rank, j);
    } else {
      i := k;
    }
  }

  /** With layered actors and supplied mailboxes, some actor can move until all are done. */
  lemma NoDeadlock(programs: seq<Program>, schedule: seq<nat>, rank: seq<nat>)
    requires Play(programs, schedule).Some? && Supplied(programs) && Layered(programs, rank)
    ensures !Deadlocked(programs, Play(programs, schedule).value)
  {
    var s := Play(programs, schedule).value;
    if Deadlocked(programs, s) {
      var k :| 0 <= k < |programs| && s.pcs[k] != |programs[k]|;
      var i := LowestUnfinished(programs, s, rank, k);
      assert !Enabled(programs, s, i);
      var m := programs[i][s.pcs[i]].box;
      assert Get(m) in programs[i];
      AllExecuted(programs, s.pcs, Put(m));
      SomeLeft(programs, s.pcs, Get(m), i);
      RunConserves(programs, schedule);
    }
  }

  // ---------- Causality ----------

  lemma {:induction false} ExecutedAtLeast(programs: seq<Program>, pcs: seq<nat>, x: Instruction, i: nat)
    requires Fits(programs, State(pcs, multiset{})) && i < |programs|
    ensures multiset(programs[i][..pcs[i]])[x] <= Executed(programs, pcs, x)
  {
    var n := |programs| - 1;
    if i < n {
      ExecutedAtLeast(programs[..n], pcs[..n], x, i);
    }
  }

  lemma {:induction false} SomeoneExecuted(programs: seq<Program>, pcs: seq<nat>, x: Instruction) returns (j: nat)
    requires Fits(programs, State(pcs, multiset{})) && Executed(programs, pcs, x) > 0
    ensures j < |programs| && x in programs[j][..pcs[j]]
  {
    var n := |programs| - 1;
    if x in programs[n][..pcs[n]] {
      j := n;
    } else {
      j := SomeoneExecuted(programs[..n], pcs[..n], x);
    }
  }

  /** A token that was taken had been put before. */
  lemma TakenWasPut(programs: seq<Program>, schedule: seq<nat>, i: nat, m: Mailbox) returns (j: nat)
    requires Play(programs, schedule).Some? && i < |programs|
    requires var s := Play(programs, schedule).value; Get(m) in programs[i][..s.pcs[i]]
    ensures var s := Play(programs, schedule).value;
            j < |programs| && Put(m) in programs[j][..s.pcs[j]]
  {
    var s := Play(programs, schedule).value;
    RunConserves(programs, schedule);
    ExecutedAtLeast(programs, s.pcs, Get(m), i);
    assert Get(m) in multiset(programs[i][..s.pcs[i]]);
    assert s.boxes[m] + Executed(programs, s.pcs, Get(m)) == Executed(programs, s.pcs, Put(m));
    j := SomeoneExecuted(programs, s.pcs, Put(m));
  }
}
