/**
 The durable job queue as a protocol.  Each repository call is one atomic event on the
 table of jobs; a run is any interleaving of the events of any number of workers.
 */
module Queue {
  import opened Graphs
  import opened Outcomes

  datatype Status = Pending | Leased | Completed | Failed | Cancelled

  datatype Job = Job(
    category: Id,
    kind: Id,
    priority: int,
    availableAt: int,
    createdAt: int,
    status: Status,
    owner: Id,
    expiresAt: Option<int>,
    attempts: nat,
    maxAttempts: int,
    key: Id,
    startedAt: Option<int>,
    completedAt: Option<int>
  )

  type Table = map<Id, Job>

  /** A job as it is created: pending, never leased. */
  predicate Fresh(job: Job) {
    && job.status == Pending && job.owner == "" && job.expiresAt.None?
    && job.attempts == 0 && job.maxAttempts >= 1
    && job.startedAt.None? && job.completedAt.None?
  }

  datatype Event =
    | Publish(id: Id, job: Job)
    | Lease(owner: Id, ids: set<Id>, now: int, expiresAt: int)
    | Renew(id: Id, owner: Id, expiresAt: int)
    | Complete(id: Id, owner: Id, at: int)
    | Retry(id: Id, owner: Id, availableAt: int)
    | Cancel(id: Id, at: int)
    | Release(ids: set<Id>, now: int)

  predicate HeldBy(t: Table, id: Id, owner: Id) {
    id in t && t[id].status == Leased && t[id].owner == owner
  }

  predicate KeyTaken(t: Table, key: Id) {
    key != "" && exists id <- t :: t[id].key == key
  }

  predicate Expired(t: Table, id: Id, now: int) {
    id in t && t[id].status == Leased && t[id].expiresAt.Some? && t[id].expiresAt.value <= now
  }

  /** When the event changes rows; otherwise the call reports an error and changes nothing. */
  ghost predicate Enabled(t: Table, e: Event) {
    match e
    case Publish(id, job) => id !in t && Fresh(job) && !KeyTaken(t, job.key)
    case Lease(owner, ids, now, _) =>
      owner != "" && forall id <- ids :: id in t && t[id].status == Pending && t[id].availableAt <= now
    case Renew(id, owner, _) => HeldBy(t, id, owner)
    case Complete(id, owner, _) => HeldBy(t, id, owner)
    case Retry(id, owner, _) => HeldBy(t, id, owner)
    case Cancel(id, _) => id in t && (t[id].status == Pending || t[id].status == Leased)
    case Release(ids, now) => forall id :: id in ids <==> Expired(t, id, now)
  }

  function LeaseRow(job: Job, owner: Id, now: int, expiresAt: int): Job {
    job.(status := Leased, owner := owner, expiresAt := Some(expiresAt), attempts := job.attempts + 1,
         startedAt := if job.startedAt.None? then Some(now) else job.startedAt)
  }

  function RetryRow(job: Job, availableAt: int): Job {
    var spent := job.attempts >= job.maxAttempts;
    job.(status := if spent then Failed else Pending, availableAt := availableAt, owner := "", expiresAt := None,
         completedAt := if spent then Some(availableAt) else None)
  }

  function ReleaseRow(job: Job, now: int): Job {
    job.(status := Pending, owner := "", expiresAt := None, availableAt := now)
  }

  function Close(job: Job, status: Status, at: int): Job {
    job.(status := status, owner := "", expiresAt := None, completedAt := Some(at))
  }

  /** The row of `id` after the event. */
  function RowAfter(job: Job, id: Id, e: Event): Job {
    match e
    case Publish(_, _) => job
    case Lease(owner, ids, now, expiresAt) => if id in ids then LeaseRow(job, owner, now, expiresAt) else job
    case Renew(x, _, expiresAt) => if x == id then job.(expiresAt := Some(expiresAt)) else job
    case Complete(x, _, at) => if x == id then Close(job, Completed, at) else job
    case Retry(x, _, availableAt) => if x == id then RetryRow(job, availableAt) else job
    case Cancel(x, at) => if x == id then Close(job, Cancelled, at) else job
    case Release(ids, now) => if id in ids then ReleaseRow(job, now) else job
  }

  function Effect(t: Table, e: Event): Table {
    var rows := map id | id in t :: RowAfter(t[id], id, e);
    if e.Publish? then rows[e.id := e.job] else rows
  }

  /** The table after a run of events, each enabled when it happens. */
  ghost function After(events: seq<Event>): Option<Table> {
    if events == [] then Some(map[]) else
      var n := |events| - 1;
      var before := After(events[..n]);
      if before.Some? && Enabled(before.value, events[n]) then Some(Effect(before.value, events[n])) else None
  }

  lemma AfterSnoc(events: seq<Event>, e: Event)
    requires After(events).Some?
    ensures After(events + [e]) ==
            if Enabled(After(events).value, e) then Some(Effect(After(events).value, e)) else None
  {
    assert (events + [e])[..|events|] == events;
  }

  /** The last of some further events. */
  lemma AfterMore(events: seq<Event>, more: seq<Event>)
    requires After(events + more).Some? && more != []
    ensures var earlier := After(events + more[..|more| - 1]);
            && earlier.Some? && Enabled(earlier.value, more[|more| - 1])
            && After(events + more).value == Effect(earlier.value, more[|more| - 1])
  {
    hide Enabled, Effect;
    var n := |more| - 1;
    assert (events + more)[..|events| + n] == events + more[..n];
  }

  lemma RowOfEffect(t: Table, e: Event, id: Id)
    requires id in t && Enabled(t, e)
    ensures id in Effect(t, e) && Effect(t, e)[id] == RowAfter(t[id], id, e)
  {
  }

  // ---------- History of one job ----------

  function Leases(events: seq<Event>, id: Id): nat {
    if events == [] then 0 else
      var n := |events| - 1;
      Leases(events[..n], id) + if events[n].Lease? && id in events[n].ids then 1 else 0
  }

  function Expiries(events: seq<Event>, id: Id): nat {
    if events == [] then 0 else
      var n := |events| - 1;
      Expiries(events[..n], id) + if events[n].Release? && id in events[n].ids then 1 else 0
  }

  function Completions(events: seq<Event>, id: Id): nat {
    if events == [] then 0 else
      var n := |events| - 1;
      Completions(events[..n], id) + if events[n].Complete? && events[n].id == id then 1 else 0
  }

  /** Who leased the job last. */
  function Lessee(events: seq<Event>, id: Id): Option<Id> {
    if events == [] then None else
      var n := |events| - 1;
      if events[n].Lease? && id in events[n].ids then Some(events[n].owner) else Lessee(events[..n], id)
  }

  predicate Terminal(status: Status) {
    status == Completed || status == Failed || status == Cancelled
  }

  /** What the history of a job says about its row. */
  ghost predicate RowOk(events: seq<Event>, id: Id, job: Job) {
    && (job.status == Leased <==> job.owner != "")
    && (job.status == Leased <==> job.expiresAt.Some?)
    && (job.status == Leased ==> Lessee(events, id) == Some(job.owner))
    && job.attempts == Leases(events, id)
    && job.attempts <= job.maxAttempts + Expiries(events, id)
    && (job.status == Pending ==> job.attempts < job.maxAttempts + Expiries(events, id))
    && (job.status == Failed ==> job.attempts >= job.maxAttempts)
    && Completions(events, id) == (if job.status == Completed then 1 else 0)
    && job.maxAttempts >= 1
  }

  lemma {:induction false} NothingHappenedYet(events: seq<Event>, id: Id)
    requires After(events).Some? && id !in After(events).value
    ensures Leases(events, id) == 0 && Expiries(events, id) == 0 && Completions(events, id) == 0
  {
    if events != [] {
      NothingHappenedYet(events[..|events| - 1], id);
    }
  }

  /** One event keeps a row in agreement with its history. */
  lemma RowStep(events: seq<Event>, t: Table, id: Id)
    requires events != [] && id in t && Enabled(t, events[|events| - 1])
    requires RowOk(events[..|events| - 1], id, t[id])
    ensures RowOk(events, id, RowAfter(t[id], id, events[|events| - 1]))
  {
  }

  /** Every row of every run agrees with its history. */
  lemma {:induction false} RowsFollowHistory(events: seq<Event>, id: Id)
    requires After(events).Some? && id in After(events).value
    ensures RowOk(events, id, After(events).value[id])
  {
    var n := |events| - 1;
    var before, e := After(events[..n]).value, events[n];
    if id in before {
      RowsFollowHistory(events[..n], id);
      RowStep(events, before, id);
      hide RowOk;
      assert After(events).value[id] == RowAfter(before[id], id, e);
    } else {
      NothingHappenedYet(events[..n], id);
    }
  }

  // ---------- The laws ----------

  /** A job is completed at most once. */
  lemma CompletedAtMostOnce(events: seq<Event>, id: Id)
    requires After(events).Some?
    ensures Completions(events, id) <= 1
  {
    if id in After(events).value {
      RowsFollowHistory(events, id);
    } else {
      NothingHappenedYet(events, id);
    }
  }

  /** Once a job is completed, failed or cancelled its row never changes again. */
  lemma {:induction false} TerminalIsForever(events: seq<Event>, more: seq<Event>, id: Id)
    requires After(events + more).Some? && After(events).Some?
    requires id in After(events).value && Terminal(After(events).value[id].status)
    ensures id in After(events + more).value && After(events + more).value[id] == After(events).value[id]
  {
    if more == [] {
      assert events + more == events;
    } else {
      var n := |more| - 1;
      AfterMore(events, more);
      hide After, Effect;
      TerminalIsForever(events, more[..n], id);
      RowOfEffect(After(events + more[..n]).value, more[n], id);
    }
  }

  /** Attempts count the leases, and only expired leases can push them past the maximum. */
  lemma AttemptsAreBounded(events: seq<Event>, id: Id)
    requires After(events).Some? && id in After(events).value
    ensures var job := After(events).value[id];
            job.attempts == Leases(events, id) <= job.maxAttempts + Expiries(events, id)
  {
    RowsFollowHistory(events, id);
  }

  /** A lease of `id` expired after `max` leases or more had been taken. */
  predicate ExpiredLate(events: seq<Event>, id: Id, max: int) {
    events != [] &&
      var n := |events| - 1;
      || ExpiredLate(events[..n], id, max)
      || (events[n].Release? && id in events[n].ids && Leases(events[..n], id) >= max)
  }

  /** After such an expiry the job was leased once more. */
  predicate LeasedAgain(events: seq<Event>, id: Id, max: int) {
    events != [] &&
      var n := |events| - 1;
      || LeasedAgain(events[..n], id, max)
      || (events[n].Lease? && id in events[n].ids && ExpiredLate(events[..n], id, max))
  }

  /** What decides whether the attempts pass the maximum. */
  ghost predicate Overrun(events: seq<Event>, id: Id, job: Job) {
    && (job.attempts > job.maxAttempts <==> LeasedAgain(events, id, job.maxAttempts))
    && (job.status == Pending && job.attempts >= job.maxAttempts ==> ExpiredLate(events, id, job.maxAttempts))
    && (ExpiredLate(events, id, job.maxAttempts) ==> job.attempts >= job.maxAttempts)
  }

  lemma {:induction false} NothingExpiredYet(events: seq<Event>, id: Id, max: int)
    requires Expiries(events, id) == 0
    ensures !ExpiredLate(events, id, max) && !LeasedAgain(events, id, max)
  {
    if events != [] {
      NothingExpiredYet(events[..|events| - 1], id, max);
    }
  }

  lemma OverrunStep(events: seq<Event>, t: Table, id: Id)
    requires events != [] && id in t && Enabled(t, events[|events| - 1])
    requires Overrun(events[..|events| - 1], id, t[id]) && t[id].attempts == Leases(events[..|events| - 1], id)
    ensures Overrun(events, id, RowAfter(t[id], id, events[|events| - 1]))
  {
  }

  lemma {:induction false} OverrunFollowsHistory(events: seq<Event>, id: Id)
    requires After(events).Some? && id in After(events).value
    ensures Overrun(events, id, After(events).value[id])
  {
    var n := |events| - 1;
    var before, e := After(events[..n]).value, events[n];
    if id in before {
      OverrunFollowsHistory(events[..n], id);
      RowsFollowHistory(events[..n], id);
      OverrunStep(events, before, id);
      hide Overrun;
      assert After(events).value[id] == RowAfter(before[id], id, e);
    } else {
      NothingHappenedYet(events[..n], id);
      NothingExpiredYet(events[..n], id, After(events).value[id].maxAttempts);
    }
  }

  /** The attempts pass the maximum exactly when a lease of a job that had used them up expired and was taken again. */
  lemma PassesMaximumExactlyWhen(events: seq<Event>, id: Id)
    requires After(events).Some? && id in After(events).value
    ensures var job := After(events).value[id];
            job.attempts > job.maxAttempts <==> LeasedAgain(events, id, job.maxAttempts)
  {
    OverrunFollowsHistory(events, id);
  }

  /** A lease of one job for one unit of time. */
  function LeaseAt(id: Id, owner: Id, at: int): Event {
    Lease(owner, {id}, at, at + 1)
  }

  /** A job whose leases all expire, `k` times in a row. */
  function ExpiringRun(id: Id, job: Job, owner: Id, k: nat): seq<Event> {
    if k == 0 then [Publish(id, job)]
    else ExpiringRun(id, job, owner, k - 1) + [LeaseAt(id, owner, job.availableAt + k - 1)]
         + [Release({id}, job.availableAt + k)]
  }

  /** The job is alone in the queue, pending, and has been leased `k` times. */
  predicate LeasedTimes(t: Table, id: Id, job: Job, k: nat) {
    && t.Keys == {id} && t[id].status == Pending && t[id].attempts == k
    && t[id].maxAttempts == job.maxAttempts && t[id].availableAt == job.availableAt + k
  }

  ghost predicate RunLeases(events: seq<Event>, id: Id, job: Job, k: nat) {
    After(events).Some? && LeasedTimes(After(events).value, id, job, k)
  }

  /** Expiries let a job be leased any number of times, whatever its maximum. */
  lemma {:induction false} ExpiriesPassAnyMaximum(id: Id, job: Job, owner: Id, k: nat)
    requires Fresh(job) && owner != ""
    ensures RunLeases(ExpiringRun(id, job, owner, k), id, job, k)
  {
    hide RunLeases;
    if k == 0 {
      Published(id, job);
    } else {
      ExpiriesPassAnyMaximum(id, job, owner, k - 1);
      ExpireOnce(ExpiringRun(id, job, owner, k - 1), id, job, owner, k - 1);
    }
  }

  lemma Published(id: Id, job: Job)
    requires Fresh(job)
    ensures RunLeases([Publish(id, job)], id, job, 0) && RunFails([Publish(id, job)], id, job, 0)
  {
    AfterSnoc([], Publish(id, job));
    assert [] + [Publish(id, job)] == [Publish(id, job)];
  }

  /** One more lease that expires. */
  lemma ExpireOnce(events: seq<Event>, id: Id, job: Job, owner: Id, k: nat)
    requires RunLeases(events, id, job, k) && owner != ""
    ensures RunLeases(events + [LeaseAt(id, owner, job.availableAt + k)] + [Release({id}, job.availableAt + k + 1)],
                      id, job, k + 1)
  {
    var lease, release := LeaseAt(id, owner, job.availableAt + k), Release({id}, job.availableAt + k + 1);
    LeaseExpires(After(events).value, id, job, owner, k, lease, release);
    AfterSnoc(events, lease);
    AfterSnoc(events + [lease], release);
    hide LeasedTimes, Enabled, Effect, After, LeaseAt;
  }

  lemma LeaseExpires(t: Table, id: Id, job: Job, owner: Id, k: nat, lease: Event, release: Event)
    requires LeasedTimes(t, id, job, k) && owner != ""
    requires lease == LeaseAt(id, owner, job.availableAt + k) && release == Release({id}, job.availableAt + k + 1)
    ensures Enabled(t, lease) && Enabled(Effect(t, lease), release)
    ensures LeasedTimes(Effect(Effect(t, lease), release), id, job, k + 1)
  {
  }

  /** Without expiries, a job fails at exactly its last permitted attempt. */
  lemma FailsAfterMaxAttempts(events: seq<Event>, id: Id)
    requires After(events).Some? && id in After(events).value && Expiries(events, id) == 0
    ensures var job := After(events).value[id];
            && (job.status == Failed ==> Leases(events, id) == job.maxAttempts)
            && (job.status == Pending ==> Leases(events, id) < job.maxAttempts)
  {
    RowsFollowHistory(events, id);
  }

  lemma {:induction false} CancelledWasCancelled(events: seq<Event>, id: Id)
    requires After(events).Some? && id in After(events).value && After(events).value[id].status == Cancelled
    ensures exists e <- events :: e.Cancel? && e.id == id
  {
    var n := |events| - 1;
    assert events[n] in events;
    var before := After(events[..n]).value;
    if id in before && before[id].status == Cancelled {
      CancelledWasCancelled(events[..n], id);
    }
  }

  /**
   In every run, whoever works on the other jobs: a job that is over, was never completed or
   cancelled and whose leases never expired, has failed after exactly the permitted dispatches.
   */
  lemma AlwaysFailingIsDispatchedMaxTimes(events: seq<Event>, id: Id)
    requires After(events).Some? && id in After(events).value && Terminal(After(events).value[id].status)
    requires Completions(events, id) == 0 && Expiries(events, id) == 0
    requires forall e <- events :: e.Cancel? ==> e.id != id
    ensures var job := After(events).value[id];
            job.status == Failed && Leases(events, id) == job.maxAttempts == job.attempts
  {
    RowsFollowHistory(events, id);
    if After(events).value[id].status == Cancelled {
      CancelledWasCancelled(events, id);
    }
  }

  /** A job that fails whenever it is dispatched, `k` times in a row. */
  function FailingRun(id: Id, job: Job, owner: Id, k: nat): seq<Event> {
    if k == 0 then [Publish(id, job)]
    else FailingRun(id, job, owner, k - 1) + [LeaseAt(id, owner, job.availableAt)] + [Retry(id, owner, job.availableAt)]
  }

  /** The job has failed `k` times. */
  predicate FailedTimes(t: Table, id: Id, job: Job, k: nat) {
    && id in t && t[id].attempts == k
    && t[id].maxAttempts == job.maxAttempts && t[id].availableAt == job.availableAt
    && t[id].status == if k < job.maxAttempts then Pending else Failed
  }

  ghost predicate RunFails(events: seq<Event>, id: Id, job: Job, k: nat) {
    After(events).Some? && FailedTimes(After(events).value, id, job, k)
  }

  /** An always-failing job can be dispatched as often as permitted, and then has failed. */
  lemma {:induction false} DispatchedMaxAttemptsTimes(id: Id, job: Job, owner: Id, k: nat)
    requires Fresh(job) && owner != "" && k <= job.maxAttempts
    ensures RunFails(FailingRun(id, job, owner, k), id, job, k)
  {
    hide RunFails;
    if k == 0 {
      Published(id, job);
    } else {
      DispatchedMaxAttemptsTimes(id, job, owner, k - 1);
      FailOnce(FailingRun(id, job, owner, k - 1), id, job, owner, k - 1);
    }
  }

  /** One more failed dispatch. */
  lemma FailOnce(events: seq<Event>, id: Id, job: Job, owner: Id, k: nat)
    requires RunFails(events, id, job, k) && k < job.maxAttempts && owner != ""
    ensures RunFails(events + [LeaseAt(id, owner, job.availableAt)] + [Retry(id, owner, job.availableAt)],
                     id, job, k + 1)
  {
    var lease, retry := LeaseAt(id, owner, job.availableAt), Retry(id, owner, job.availableAt);
    DispatchFails(After(events).value, id, job, owner, k, lease, retry);
    AfterSnoc(events, lease);
    AfterSnoc(events + [lease], retry);
    hide FailedTimes, Enabled, Effect, After, LeaseAt;
  }

  lemma DispatchFails(t: Table, id: Id, job: Job, owner: Id, k: nat, lease: Event, retry: Event)
    requires FailedTimes(t, id, job, k) && k < job.maxAttempts && owner != ""
    requires lease == LeaseAt(id, owner, job.availableAt) && retry == Retry(id, owner, job.availableAt)
    ensures Enabled(t, lease) && Enabled(Effect(t, lease), retry)
    ensures FailedTimes(Effect(Effect(t, lease), retry), id, job, k + 1)
  {
    assert HeldBy(Effect(t, lease), id, owner);
  }

  /** Whoever completes, retries or renews a job is the worker it was leased to last. */
  lemma StaleWorkersAreFenced(events: seq<Event>, e: Event)
    requires After(events + [e]).Some? && (e.Complete? || e.Retry? || e.Renew?)
    ensures Lessee(events, e.id) == Some(e.owner)
  {
    assert (events + [e])[..|events|] == events;
    RowsFollowHistory(events, e.id);
  }

  predicate TouchedBy(e: Event, id: Id, owner: Id) {
    match e
    case Renew(x, o, _) => x == id && o == owner
    case Complete(x, o, _) => x == id && o == owner
    case Retry(x, o, _) => x == id && o == owner
    case Cancel(x, _) => x == id
    case Release(ids, _) => id in ids
    case _ => false
  }

  /** A lease stays exactly as it is until its holder acts, it is cancelled, or it expires. */
  lemma {:induction false} LeaseIsExclusive(events: seq<Event>, more: seq<Event>, id: Id)
    requires After(events + more).Some? && After(events).Some?
    requires id in After(events).value && After(events).value[id].status == Leased
    requires forall e <- more :: !TouchedBy(e, id, After(events).value[id].owner)
    ensures id in After(events + more).value && After(events + more).value[id] == After(events).value[id]
  {
    if more == [] {
      assert events + more == events;
    } else {
      var n := |more| - 1;
      assert more[n] in more;
      AfterMore(events, more);
      hide After, Effect;
      LeaseIsExclusive(events, more[..n], id);
      RowOfEffect(After(events + more[..n]).value, more[n], id);
    }
  }

  /** No two rows share an idempotency key. */
  ghost predicate KeysUnique(t: Table) {
    forall a, b :: a in t && b in t && t[a].key == t[b].key != "" ==> a == b
  }

  lemma {:induction false} KeysStayUnique(events: seq<Event>)
    requires After(events).Some?
    ensures KeysUnique(After(events).value)
  {
    if events != [] {
      var n := |events| - 1;
      var before, e := After(events[..n]).value, events[n];
      KeysStayUnique(events[..n]);
      assert forall id <- before :: RowAfter(before[id], id, e).key == before[id].key;
    }
  }
}
