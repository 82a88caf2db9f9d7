/** What the event loop can always do: hand out all it leases, fill up, wake up and come to an end. */
module EventLoopLaws {
  import opened Graphs
  import opened Outcomes
  import opened EventLoop

  // ---------- Going on from a state ----------

  /** Where `more` leads from `s`, if each of its steps is possible. */
  ghost function Then(s: State, more: seq<Step>): Option<State>
    decreases |more|
  {
    if more == [] then Some(s)
    else if Enabled(s, more[0]) then Then(Apply(s, more[0]), more[1..])
    else None
  }

  lemma OneMore(concurrency: nat, steps: seq<Step>, step: Step)
    requires After(concurrency, steps).Some? && Enabled(After(concurrency, steps).value, step)
    ensures After(concurrency, steps + [step]) == Some(Apply(After(concurrency, steps).value, step))
  {
    hide Enabled, Apply;
    assert (steps + [step])[..|steps|] == steps;
  }

  lemma FirstIsEnabled(s: State, more: seq<Step>)
    requires Then(s, more).Some? && more != []
    ensures Enabled(s, more[0]) && Then(s, more) == Then(Apply(s, more[0]), more[1..])
  {
    hide Enabled, Apply;
  }

  lemma {:induction false} GoOn(concurrency: nat, steps: seq<Step>, more: seq<Step>)
    requires After(concurrency, steps).Some? && Then(After(concurrency, steps).value, more).Some?
    ensures After(concurrency, steps + more) == Then(After(concurrency, steps).value, more)
    decreases |more|
  {
    hide *;
    if more == [] {
      NothingMore(After(concurrency, steps).value);
      assert steps + more == steps;
    } else {
      FirstIsEnabled(After(concurrency, steps).value, more);
      OneMore(concurrency, steps, more[0]);
      assert steps + more == steps + [more[0]] + more[1..];
      GoOn(concurrency, steps + [more[0]], more[1..]);
    }
  }

  lemma NothingMore(s: State)
    ensures Then(s, []) == Some(s)
  {
  }

  lemma First(s: State, step: Step, more: seq<Step>)
    requires Enabled(s, step)
    ensures Then(s, [step] + more) == Then(Apply(s, step), more)
  {
    assert ([step] + more)[1..] == more;
  }

  /** What holds in every state of every run. */
  ghost predicate Sound(s: State) {
    Accounted(s) && Fitting(s) && (s.phase.Sending? ==> s.phase.left > 0)
  }

  lemma SoundStep(s: State, step: Step)
    requires Sound(s) && Enabled(s, step)
    ensures Sound(Apply(s, step))
  {
    StepKeepsAccounts(s, step);
    hide Accounted;
  }

  lemma RunsStaySound(concurrency: nat, steps: seq<Step>)
    requires After(concurrency, steps).Some?
    ensures Sound(After(concurrency, steps).value) && After(concurrency, steps).value.concurrency == concurrency
  {
    RunsAreSound(concurrency, steps);
    LeasedJobsAreHandled(concurrency, steps);
  }

  // ---------- Every leased job gets a handler ----------

  /** How many jobs the loop has leased. */
  function LeasedJobs(steps: seq<Step>): nat {
    if steps == [] then 0 else
      var n := |steps| - 1;
      LeasedJobs(steps[..n]) + if steps[n].LeaseJobs? then steps[n].count else 0
  }

  /** Leased jobs that still wait for their handler. */
  function Unhandled(phase: LoopPhase): nat {
    match phase
    case Sending(left) => left
    case Spawning(left) => left
    case _ => 0
  }

  /** In every interleaving each leased job has a handler or is still in the loop's hands; none is dropped. */
  lemma {:induction false} LeasedJobsAreHandled(concurrency: nat, steps: seq<Step>)
    requires After(concurrency, steps).Some?
    ensures var s := After(concurrency, steps).value; LeasedJobs(steps) == |s.handlers| + Unhandled(s.phase)
    ensures var s := After(concurrency, steps).value; s.phase.Sending? ==> s.phase.left > 0
  {
    if steps != [] {
      var n := |steps| - 1;
      LeasedJobsAreHandled(concurrency, steps[..n]);
      RunsAreSound(concurrency, steps[..n]);
      hide After, Noticed, Accounted;
      HandledOn(After(concurrency, steps[..n]).value, steps[n]);
    }
  }

  lemma HandledOn(s: State, step: Step)
    requires Enabled(s, step) && Fitting(s) && (s.phase.Sending? ==> s.phase.left > 0)
    ensures var t := Apply(s, step);
            && |t.handlers| + Unhandled(t.phase)
            == |s.handlers| + Unhandled(s.phase) + (if step.LeaseJobs? then step.count else 0)
            && (t.phase.Sending? ==> t.phase.left > 0)
  {
  }

  // ---------- Wake-ups ----------

  function Wakes(steps: seq<Step>): nat {
    if steps == [] then 0 else Wakes(steps[..|steps| - 1]) + if steps[|steps| - 1].Wake? then 1 else 0
  }

  function OutsideNotes(steps: seq<Step>): nat {
    if steps == [] then 0 else OutsideNotes(steps[..|steps| - 1]) + if steps[|steps| - 1].OutsideNotify? then 1 else 0
  }

  /** The loop wakes up at most once per notification, from outside or from a handler that has ended. */
  lemma {:induction false} WakesAreNotified(concurrency: nat, steps: seq<Step>)
    requires After(concurrency, steps).Some?
    ensures var s := After(concurrency, steps).value;
            Wakes(steps) + (if s.wakeUp then 1 else 0) <= OutsideNotes(steps) + Count(s.handlers, Notified)
  {
    if steps != [] {
      var n := |steps| - 1;
      WakesAreNotified(concurrency, steps[..n]);
      NotifiedOn(After(concurrency, steps[..n]).value, steps[n]);
      hide Count, Enabled, Apply;
    }
  }

  /** A step takes a wake-up token only where there is one, and makes one only for a notification. */
  lemma NotifiedOn(s: State, step: Step)
    requires Enabled(s, step)
    ensures var t := Apply(s, step);
            (if t.wakeUp then 1 else 0) + (if step.Wake? then 1 else 0)
            <= (if s.wakeUp then 1 else 0) + (if step.OutsideNotify? then 1 else 0)
               + Count(t.handlers, Notified) - Count(s.handlers, Notified)
  {
    if step.HandlerMoves? {
      var next := match s.handlers[step.i] case Handling => SlotFreed case SlotFreed => Signed case _ => Notified;
      MoveOne(s.handlers, step.i, next);
    } else if step.Spawn? {
      AddOne(s.handlers);
    }
    hide Count;
  }

  /** A notification is always taken, and a waiting loop answers it with one look at the queue. */
  lemma NotificationWakes(concurrency: nat, steps: seq<Step>)
    requires After(concurrency, steps).Some?
    ensures var s := After(concurrency, steps).value;
            && After(concurrency, steps + [OutsideNotify]) == Some(s.(wakeUp := true))
            && (s.phase == Selecting ==>
                  After(concurrency, steps + [OutsideNotify, Wake]) == Some(s.(phase := Sampling, wakeUp := false)))
  {
    var s := After(concurrency, steps).value;
    GoOn(concurrency, steps, [OutsideNotify]);
    if s.phase == Selecting {
      First(s, OutsideNotify, [Wake]);
      assert [OutsideNotify] + [Wake] == [OutsideNotify, Wake];
      GoOn(concurrency, steps, [OutsideNotify, Wake]);
    }
  }

  // ---------- Filling up ----------

  /** Handing out the rest of a batch. */
  lemma {:induction false} HandOut(s: State) returns (more: seq<Step>)
    requires Sound(s) && s.phase.Sending?
    ensures var t := Then(s, more);
            && t.Some? && t.value.phase == Selecting && t.value.slots == s.slots + s.phase.left
            && t.value.concurrency == s.concurrency
    decreases s.phase.left
  {
    var sent := Apply(s, SendSlot);
    SoundStep(s, SendSlot);
    var spawned := Apply(sent, Spawn);
    SoundStep(sent, Spawn);
    var rest := [];
    if spawned.phase.Sending? {
      rest := HandOut(spawned);
    }
    hide Then;
    First(sent, Spawn, rest);
    First(s, SendSlot, [Spawn] + rest);
    more := [SendSlot] + ([Spawn] + rest);
  }

  /** Looking at a queue with enough jobs in it. */
  lemma LookAndTake(s: State) returns (more: seq<Step>)
    requires Sound(s) && s.phase == Selecting
    ensures var t := Then(s, more);
            t.Some? && t.value.phase == Selecting && t.value.slots == t.value.concurrency == s.concurrency
  {
    var ticked := Apply(s, Tick);
    SoundStep(s, Tick);
    var sampled := Apply(ticked, Sample);
    SoundStep(ticked, Sample);
    var free := s.concurrency - s.slots;
    var rest := [];
    if free > 0 {
      var leased := Apply(sampled, LeaseJobs(free));
      SoundStep(sampled, LeaseJobs(free));
      rest := HandOut(leased);
      First(sampled, LeaseJobs(free), rest);
      rest := [LeaseJobs(free)] + rest;
    }
    First(ticked, Sample, rest);
    First(s, Tick, [Sample] + rest);
    more := [Tick] + ([Sample] + rest);
  }

  /** From any wait, given enough jobs, the next look at the queue brings as many handlers to work as are allowed. */
  lemma CanFillUp(concurrency: nat, steps: seq<Step>) returns (more: seq<Step>)
    requires After(concurrency, steps).Some? && After(concurrency, steps).value.phase == Selecting
    ensures After(concurrency, steps + more).Some?
    ensures Count(After(concurrency, steps + more).value.handlers, Handling) == concurrency
  {
    hide Count;
    RunsStaySound(concurrency, steps);
    more := LookAndTake(After(concurrency, steps).value);
    GoOn(concurrency, steps, more);
    RunsStaySound(concurrency, steps + more);
  }

  // ---------- Coming to an end ----------

  /** How far the loop is from returning. */
  function Distance(phase: LoopPhase): nat {
    match phase
    case Returned => 0
    case Waiting => 1
    case Selecting => 2
    case Querying(_) => 3
    case Sampling => 4
    case Spawning(left) => 2 + 2 * left
    case Sending(left) => 3 + 2 * left
  }

  /** A step that brings the loop closer to its end. */
  ghost function Onward(s: State): Step
    requires s.phase == Waiting && s.running > 0 ==> exists i :: Busy(s, i)
  {
    match s.phase
    case Waiting => if s.running == 0 then WaitGroupEmpty else var i :| Busy(s, i); HandlerMoves(i)
    case Selecting => ContextDone
    case Querying(_) => LeaseJobs(0)
    case Sampling => Sample
    case Spawning(_) => Spawn
    case _ => SendSlot
  }

  ghost predicate Busy(s: State, i: nat) {
    i < |s.handlers| && (s.handlers[i] == Handling || s.handlers[i] == SlotFreed)
  }

  lemma SomeoneIsBusy(s: State)
    requires Accounted(s) && s.running > 0
    ensures exists i :: Busy(s, i)
  {
    var p := if Count(s.handlers, Handling) > 0 then Handling else SlotFreed;
    assert p in multiset(s.handlers);
    var i :| 0 <= i < |s.handlers| && s.handlers[i] == p;
    assert Busy(s, i);
  }

  lemma OnwardIsCloser(s: State)
    requires Sound(s) && s.phase != Returned
    requires s.phase == Waiting && s.running > 0 ==> exists i :: Busy(s, i)
    ensures Enabled(s, Onward(s))
    ensures var t := Apply(s, Onward(s));
            || Distance(t.phase) < Distance(s.phase)
            || (t.phase == s.phase && t.slots + t.running < s.slots + s.running)
    ensures Onward(s).LeaseJobs? ==> Onward(s).count == 0
  {
    if s.phase == Waiting && s.running > 0 {
      var i := Onward(s).i;
      assert multiset(s.handlers)[s.handlers[i]] > 0;
    }
  }

  ghost predicate LeasesNothing(steps: seq<Step>) {
    forall step <- steps :: step.LeaseJobs? ==> step.count == 0
  }

  lemma {:induction false} WindDown(s: State) returns (more: seq<Step>)
    requires Sound(s)
    ensures Then(s, more).Some? && Then(s, more).value.phase == Returned && LeasesNothing(more)
    decreases Distance(s.phase), s.slots + s.running
  {
    if s.phase == Returned {
      more := [];
    } else {
      if s.phase == Waiting && s.running > 0 {
        SomeoneIsBusy(s);
      }
      OnwardIsCloser(s);
      SoundStep(s, Onward(s));
      hide Sound, Apply, Enabled, Then;
      var rest := WindDown(Apply(s, Onward(s)));
      First(s, Onward(s), rest);
      more := [Onward(s)] + rest;
    }
  }

  /** Every run of the loop, whatever has happened, can end, and end without leasing anything more. */
  lemma CanReturn(concurrency: nat, steps: seq<Step>) returns (more: seq<Step>)
    requires After(concurrency, steps).Some?
    ensures After(concurrency, steps + more).Some? && After(concurrency, steps + more).value.phase == Returned
    ensures LeasesNothing(more)
  {
    RunsStaySound(concurrency, steps);
    more := WindDown(After(concurrency, steps).value);
    GoOn(concurrency, steps, more);
  }
}
