/**
 The event loop: one loop goroutine leases jobs and starts a handler per job; handlers give
 their semaphore slot back and wake the loop.  Any interleaving of loop, handlers, ticker and
 outside notifications is a run.
 */
module EventLoop {
  import opened Graphs
  import opened Outcomes
  import opened Queue

  /** Where the loop goroutine stands. */
  datatype LoopPhase =
    | Selecting                 // blocked in select
    | Sampling                  // entered drain, capacity not read yet
    | Querying(available: nat)  // asking the queue for at most this many jobs
    | Sending(left: nat)        // this many leased jobs still need a slot
    | Spawning(left: nat)       // holds the slot of one of them
    | Waiting                   // context done, waiting for handlers
    | Returned

  /** Where a handler goroutine stands. */
  datatype HandlerPhase =
    | Handling   // running the job, owns a slot
    | SlotFreed  // slot given back
    | Signed     // signed off from the wait group
    | Notified   // posted its wake-up

  datatype State = State(
    concurrency: nat,
    phase: LoopPhase,
    slots: nat,
    running: nat,
    wakeUp: bool,
    handlers: seq<HandlerPhase>,
    freed: bool,
    known: nat
  )

  datatype Step =
    | Tick
    | Wake
    | ContextDone
    | Sample
    | LeaseJobs(count: nat)
    | SendSlot
    | Spawn
    | HandlerMoves(i: nat)
    | OutsideNotify
    | WaitGroupEmpty

  /** `Run` begins with a drain. */
  function Initial(concurrency: nat): State {
    State(concurrency, Sampling, 0, 0, false, [], false, 0)
  }

  predicate Enabled(s: State, step: Step) {
    match step
    case Tick => s.phase == Selecting
    case Wake => s.phase == Selecting && s.wakeUp
    case ContextDone => s.phase == Selecting
    case Sample => s.phase == Sampling
    case LeaseJobs(count) => s.phase.Querying? && count <= s.phase.available
    case SendSlot => s.phase.Sending? && s.phase.left > 0 && s.slots < s.concurrency
    case Spawn => s.phase.Spawning?
    case HandlerMoves(i) => i < |s.handlers| && s.handlers[i] != Notified && (s.handlers[i] == Handling ==> s.slots > 0)
                            && (s.handlers[i] == SlotFreed ==> s.running > 0)
    case OutsideNotify => true
    case WaitGroupEmpty => s.phase == Waiting && s.running == 0
  }

  function SendingOrDone(left: nat): LoopPhase {
    if left == 0 then Selecting else Sending(left)
  }

  function Apply(s: State, step: Step): State
    requires Enabled(s, step)
  {
    match step
    case Tick => s.(phase := Sampling)
    case Wake => s.(phase := Sampling, wakeUp := false)
    case ContextDone => s.(phase := Waiting)
    case Sample =>
      var available := s.concurrency - s.slots;
      s.(phase := if available <= 0 then Selecting else Querying(available), freed := false,
         known := if available <= 0 then 0 else available)
    case LeaseJobs(count) => s.(phase := SendingOrDone(count))
    case SendSlot =>
      s.(phase := Spawning(s.phase.left), slots := s.slots + 1, known := if s.known == 0 then 0 else s.known - 1)
    case Spawn =>
      s.(phase := if s.phase.left == 0 then Selecting else SendingOrDone(s.phase.left - 1),
         running := s.running + 1, handlers := s.handlers + [Handling])
    case HandlerMoves(i) =>
      (match s.handlers[i]
       case Handling => s.(handlers := s.handlers[i := SlotFreed], slots := s.slots - 1, freed := true)
       case SlotFreed => s.(handlers := s.handlers[i := Signed], running := s.running - 1)
       case Signed => s.(handlers := s.handlers[i := Notified], wakeUp := true)
       case Notified => s)
    case OutsideNotify => s.(wakeUp := true)
    case WaitGroupEmpty => s.(phase := Returned)
  }

  ghost function After(concurrency: nat, steps: seq<Step>): Option<State> {
    if steps == [] then Some(Initial(concurrency)) else
      var n := |steps| - 1;
      var before := After(concurrency, steps[..n]);
      if before.Some? && Enabled(before.value, steps[n]) then Some(Apply(before.value, steps[n])) else None
  }

  function Count(handlers: seq<HandlerPhase>, phase: HandlerPhase): nat {
    multiset(handlers)[phase]
  }

  /** Slots and wait group count the handlers that hold them. */
  ghost predicate Accounted(s: State) {
    && s.slots == Count(s.handlers, Handling) + (if s.phase.Spawning? then 1 else 0)
    && s.running == Count(s.handlers, Handling) + Count(s.handlers, SlotFreed)
    && s.slots <= s.concurrency
    && (s.phase == Returned ==> s.running == 0)
  }

  /** The loop never plans to use more slots than are free. */
  ghost predicate Fitting(s: State) {
    && (s.phase.Querying? ==> s.slots + s.phase.available <= s.concurrency)
    && (s.phase.Sending? ==> s.slots + s.phase.left <= s.concurrency)
    && (s.phase.Spawning? ==> s.phase.left > 0 && s.slots + s.phase.left - 1 <= s.concurrency)
  }

  /** A slot freed since the last sample will be noticed. */
  ghost predicate Noticed(s: State) {
    && (s.freed ==>
          || s.wakeUp
          || Count(s.handlers, SlotFreed) > 0
          || Count(s.handlers, Signed) > 0
          || s.phase == Sampling || s.phase == Waiting || s.phase == Returned)
    && (!s.freed && s.phase != Sampling ==>
          s.known == s.concurrency - s.slots || s.phase == Waiting || s.phase == Returned)
    && (s.phase == Sampling || s.known <= s.concurrency - s.slots || s.phase == Waiting || s.phase == Returned)
  }

  lemma MoveOne(handlers: seq<HandlerPhase>, i: nat, to: HandlerPhase)
    requires i < |handlers| && to != handlers[i]
    ensures forall p: HandlerPhase :: Count(handlers[i := to], p) ==
              Count(handlers, p) + (if p == to then 1 else 0) - (if p == handlers[i] then 1 else 0)
    ensures Count(handlers, handlers[i]) > 0
  {
  }

  lemma AddOne(handlers: seq<HandlerPhase>)
    ensures forall p: HandlerPhase :: Count(handlers + [Handling], p) ==
              Count(handlers, p) + if p == Handling then 1 else 0
  {
  }

  lemma HandlerKeepsAccounts(s: State, i: nat)
    requires Enabled(s, HandlerMoves(i)) && Accounted(s) && Fitting(s)
    ensures Accounted(Apply(s, HandlerMoves(i))) && Fitting(Apply(s, HandlerMoves(i)))
  {
    MoveOne(s.handlers, i, match s.handlers[i] case Handling => SlotFreed case SlotFreed => Signed case _ => Notified);
    hide Count;
  }

  lemma StepKeepsAccounts(s: State, step: Step)
    requires Enabled(s, step) && Accounted(s) && Fitting(s)
    ensures Accounted(Apply(s, step)) && Fitting(Apply(s, step))
  {
    hide Count;
    if step.HandlerMoves? {
      HandlerKeepsAccounts(s, step.i);
    } else if step.Spawn? {
      AddOne(s.handlers);
    }
  }

  lemma StepIsNoticed(s: State, step: Step)
    requires Enabled(s, step) && Accounted(s) && Fitting(s) && Noticed(s)
    ensures Noticed(Apply(s, step))
  {
  }

  /** Every state of every interleaving. */
  lemma {:induction false} RunsAreSound(concurrency: nat, steps: seq<Step>)
    requires After(concurrency, steps).Some?
    ensures var s := After(concurrency, steps).value;
            s.concurrency == concurrency && Accounted(s) && Fitting(s) && Noticed(s)
  {
    if steps != [] {
      var n := |steps| - 1;
      RunsAreSound(concurrency, steps[..n]);
      StepKeepsAccounts(After(concurrency, steps[..n]).value, steps[n]);
      StepIsNoticed(After(concurrency, steps[..n]).value, steps[n]);
    }
  }

  // ---------- The laws ----------

  /** At most `concurrency` handlers run a job at any time. */
  lemma InFlightIsBounded(concurrency: nat, steps: seq<Step>)
    requires After(concurrency, steps).Some?
    ensures Count(After(concurrency, steps).value.handlers, Handling) <= concurrency
  {
    RunsAreSound(concurrency, steps);
  }

  /** Whenever the loop wants a slot for a leased job, one is free: the send never blocks. */
  lemma SendNeverBlocks(concurrency: nat, steps: seq<Step>)
    requires After(concurrency, steps).Some?
    ensures var s := After(concurrency, steps).value;
            s.phase.Sending? && s.phase.left > 0 ==> Enabled(s, SendSlot)
  {
    RunsAreSound(concurrency, steps);
  }

  /** If the loop is blocked with no wake-up pending or about to come, it already knows every free slot. */
  lemma NoWakeUpIsLost(concurrency: nat, steps: seq<Step>)
    requires After(concurrency, steps).Some?
    ensures var s := After(concurrency, steps).value;
            s.phase == Selecting && !s.wakeUp && Count(s.handlers, SlotFreed) == 0 && Count(s.handlers, Signed) == 0 ==>
              !s.freed && s.known == concurrency - s.slots
  {
    RunsAreSound(concurrency, steps);
  }

  /** The loop returns only after every handler has finished its job. */
  lemma ReturnsAfterHandlers(concurrency: nat, steps: seq<Step>)
    requires After(concurrency, steps).Some?
    ensures var s := After(concurrency, steps).value;
            s.phase == Returned ==> Count(s.handlers, Handling) == 0 && s.slots == 0
  {
    RunsAreSound(concurrency, steps);
  }

  // ---------- Backoff ----------

  function Power(n: nat): nat {
    if n == 0 then 1 else 2 * Power(n - 1)
  }

  function Shift(attempts: int): int {
    if attempts - 1 < 8 then attempts - 1 else 8
  }

  /** How long a failed job waits before it may be leased again. */
  function Backoff(base: nat, attempts: int): nat
    requires attempts >= 1
  {
    base * Power(Shift(attempts))
  }

  lemma {:induction false} PowerGrows(m: nat, n: nat)
    requires m <= n
    ensures 1 <= Power(m) <= Power(n)
  {
    if m < n {
      PowerGrows(m, n - 1);
    } else if n > 0 {
      PowerGrows(n - 1, n - 1);
    }
  }

  lemma Scale(base: nat, a: nat, b: nat)
    requires a <= b
    ensures base * a <= base * b
  {
  }

  /** Delays never shrink from one attempt to a later one and stay within 256 times the base. */
  lemma BackoffIsMonotoneAndBounded(base: nat, attempts: int, later: int)
    requires 1 <= attempts <= later
    ensures 0 <= Shift(attempts) <= 8
    ensures base <= Backoff(base, attempts) <= Backoff(base, later) <= 256 * base
  {
    PowerGrows(0, Shift(attempts));
    PowerGrows(Shift(attempts), Shift(later));
    PowerGrows(Shift(later), 8);
    assert Power(8) == 256;
    Scale(base, 1, Power(Shift(attempts)));
    Scale(base, Power(Shift(attempts)), Power(Shift(later)));
    Scale(base, Power(Shift(later)), 256);
  }

  /** The first delay is the base; each of the next eight doubles it, and then it stays. */
  lemma BackoffDoubles(base: nat, attempts: int)
    requires attempts >= 1
    ensures Backoff(base, 1) == base
    ensures attempts <= 8 ==> Backoff(base, attempts + 1) == 2 * Backoff(base, attempts)
    ensures attempts >= 9 ==> Backoff(base, attempts) == 256 * base
  {
    if attempts >= 9 {
      assert Power(8) == 256;
    } else {
      var p := Power(Shift(attempts));
      assert Power(Shift(attempts + 1)) == 2 * p;
      Twice(base, p);
    }
  }

  lemma Twice(base: nat, p: nat)
    ensures base * (2 * p) == 2 * (base * p)
  {
  }

  /** A job handed to a handler has been counted as an attempt, so its shift is not negative. */
  lemma HandledJobsHaveAttempts(events: seq<Event>, id: Id)
    requires Queue.After(events).Some? && id in Queue.After(events).value
    requires Queue.After(events).value[id].status == Leased
    ensures Queue.After(events).value[id].attempts >= 1
  {
    RowsFollowHistory(events, id);
    LeasedWasLeased(events, id);
  }

  lemma {:induction false} LeasedWasLeased(events: seq<Event>, id: Id)
    requires Lessee(events, id).Some?
    ensures Leases(events, id) >= 1
  {
    var n := |events| - 1;
    if !(events[n].Lease? && id in events[n].ids) {
      LeasedWasLeased(events[..n], id);
    }
  }
}
