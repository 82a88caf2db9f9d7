/** The queue repository: each method is one event of the protocol, or an error that changes nothing. */
module QueueRepository {
  import opened Graphs
  import opened Outcomes
  import opened Queue
  import opened QueueColumns

  datatype QueueError = InvalidJob | DuplicateId | InvalidLease | NoRowAffected

  /** Order in which pending jobs are offered: priority first, then age. */
  predicate Precedes(a: Job, b: Job) {
    || a.priority > b.priority
    || (a.priority == b.priority && a.availableAt < b.availableAt)
    || (a.priority == b.priority && a.availableAt == b.availableAt && a.createdAt <= b.createdAt)
  }

  predicate Eligible(job: Job, categories: set<Id>, now: int) {
    job.status == Pending && job.availableAt <= now && (categories == {} || job.category in categories)
  }

  function EligibleIds(t: Table, categories: set<Id>, now: int): set<Id> {
    set id | id in t && Eligible(t[id], categories, now)
  }

  /** `a` is at least as urgent as `b`, and among equally urgent jobs not available later, nor created later. */
  ghost predicate Ahead(a: Job, b: Job) {
    && a.priority >= b.priority
    && (a.priority == b.priority ==> a.availableAt <= b.availableAt)
    && (a.priority == b.priority && a.availableAt == b.availableAt ==> a.createdAt <= b.createdAt)
  }

  /** Nobody works on the job, its time has come, and it is of one of the categories, if any are given. */
  ghost predicate Due(job: Job, categories: set<Id>, now: int) {
    && job.status.Pending?
    && !(now < job.availableAt)
    && (categories != {} ==> job.category in categories)
  }

  ghost function DueIds(t: Table, categories: set<Id>, now: int): set<Id> {
    set id | id in t && Due(t[id], categories, now)
  }

  /** `ids` lists the foremost members of `all`, foremost first; `rest` are the others. */
  ghost predicate Foremost(t: Table, all: set<Id>, ids: seq<Id>, rest: set<Id>) {
    && Distinct(ids)
    && all <= t.Keys
    && ToSet(ids) !! rest
    && all == ToSet(ids) + rest
    && (forall i, j :: 0 <= i < j < |ids| ==> ids[i] in t && ids[j] in t && Ahead(t[ids[i]], t[ids[j]]))
    && (forall i, x :: 0 <= i < |ids| && x in rest ==> ids[i] in t && Ahead(t[ids[i]], t[x]))
  }

  method Best(t: Table, s: set<Id>) returns (best: Id)
    requires s != {} && s <= t.Keys
    ensures best in s && forall x <- s :: Ahead(t[best], t[x])
  {
    best :| best in s;
    var todo := s;
    while todo != {}
      invariant todo <= s && best in s
      invariant forall x <- s - todo :: Ahead(t[best], t[x])
    {
      var x :| x in todo;
      todo := todo - {x};
      if !Precedes(t[best], t[x]) {
        best := x;
      }
    }
  }

  lemma TakeNext(t: Table, all: set<Id>, ids: seq<Id>, rest: set<Id>, next: Id)
    requires Foremost(t, all, ids, rest) && next in rest && forall x <- rest :: Ahead(t[next], t[x])
    ensures Foremost(t, all, ids + [next], rest - {next})
  {
  }

  /** The query: at most `limit` eligible jobs, in the order in which they are offered. */
  method SelectJobs(t: Table, categories: set<Id>, limit: nat, now: int)
    returns (ids: seq<Id>, ghost rest: set<Id>)
    ensures Foremost(t, DueIds(t, categories, now), ids, rest)
    ensures |ids| <= limit && (|ids| < limit ==> rest == {})
  {
    var left := EligibleIds(t, categories, now);
    ids := [];
    while |ids| < limit && left != {}
      invariant Foremost(t, DueIds(t, categories, now), ids, left) && |ids| <= limit
      decreases left
    {
      var next := Best(t, left);
      TakeNext(t, DueIds(t, categories, now), ids, left, next);
      ids := ids + [next];
      left := left - {next};
    }
    rest := left;
  }

  /** Leasing job by job in one transaction is leasing them all. */
  lemma LeaseOneMore(t: Table, ids: seq<Id>, i: nat, owner: Id, now: int, expires: int)
    requires i < |ids| && Distinct(ids) && ids[i] in t
    ensures var before := Effect(t, Event.Lease(owner, ToSet(ids[..i]), now, expires));
            && ids[i] in before && before[ids[i]] == t[ids[i]]
            && Effect(t, Event.Lease(owner, ToSet(ids[..i + 1]), now, expires))
            == before[ids[i] := LeaseRow(before[ids[i]], owner, now, expires)]
  {
    assert ids[..i + 1] == ids[..i] + [ids[i]];
  }

  lemma NothingLeased(t: Table, owner: Id, ids: seq<Id>, now: int, expires: int)
    ensures t == Effect(t, Event.Lease(owner, ToSet(ids[..0]), now, expires)) && Returned([], ids[..0], t)
  {
  }

  ghost predicate Happens(before: Table, e: Event, after: Table) {
    Enabled(before, e) && after == Effect(before, e)
  }

  lemma HappensMeans(before: Table, e: Event, after: Table)
    requires Enabled(before, e) && after == Effect(before, e)
    ensures Happens(before, e, after)
  {
  }

  lemma ForemostAreEligible(t: Table, categories: set<Id>, now: int, ids: seq<Id>, rest: set<Id>)
    requires Foremost(t, DueIds(t, categories, now), ids, rest)
    ensures Distinct(ids) && forall id <- ids :: id in t && t[id].status == Pending && t[id].availableAt <= now
  {
    forall id <- ids ensures id in DueIds(t, categories, now) {
      assert id in ToSet(ids);
    }
  }

  lemma LeaseIsEnabled(t: Table, ids: seq<Id>, owner: Id, now: int, expires: int)
    requires owner != "" && forall id <- ids :: id in t && t[id].status == Pending && t[id].availableAt <= now
    ensures Enabled(t, Event.Lease(owner, ToSet(ids), now, expires))
  {
  }

  function Ids(rows: seq<(Id, Job)>): seq<Id> {
    seq(|rows|, i requires 0 <= i < |rows| => rows[i].0)
  }

  /** `rows` are the rows of `ids` in the table. */
  ghost predicate Returned(rows: seq<(Id, Job)>, ids: seq<Id>, t: Table) {
    |rows| == |ids| && forall k :: 0 <= k < |ids| ==> ids[k] in t && rows[k] == (ids[k], t[ids[k]])
  }

  lemma ReturnOneMore(rows: seq<(Id, Job)>, ids: seq<Id>, i: nat, t: Table, row: Job)
    requires i < |ids| && Distinct(ids) && Returned(rows, ids[..i], t)
    ensures Returned(rows + [(ids[i], row)], ids[..i + 1], t[ids[i] := row])
  {
    forall k | 0 <= k < i ensures ids[k] != ids[i] {
      assert ids[k] in ids[..i];
    }
  }

  lemma ReturnedIds(rows: seq<(Id, Job)>, ids: seq<Id>, t: Table)
    requires Returned(rows, ids, t)
    ensures Ids(rows) == ids
  {
  }

  /** The columns that an insert writes. */
  function Stored(job: Job): Job {
    job.(owner := "", expiresAt := None, startedAt := None, completedAt := None)
  }

  /** The row of a job that was just inserted: nobody holds it and nothing has happened to it. */
  ghost predicate Inserted(job: Job, row: Job) {
    && SameJob(job, row) && row.status == job.status && row.attempts == job.attempts
    && row.availableAt == job.availableAt
    && row.owner == "" && row.expiresAt == row.startedAt == row.completedAt == None
  }

  /** Nothing has happened to the job yet. */
  ghost predicate Untouched(job: Job) {
    && job.status == Pending && job.attempts == 0 && job.owner == ""
    && job.expiresAt == job.startedAt == job.completedAt == None
  }

  class Repository {
    var jobs: Table
    ghost var events: seq<Event>

    /** The table is what the events of the protocol made of it, as long as only fresh jobs are published. */
    ghost predicate Valid()
      reads this
    {
      After(events) == Some(jobs)
    }

    constructor ()
      ensures Valid() && jobs == map[] && events == []
    {
      jobs, events := map[], [];
    }

    /** Enters the event that has just changed the table into the history. */
    ghost method Note(before: Table, e: Event)
      requires Enabled(before, e) && jobs == Effect(before, e)
      modifies this`events
      ensures events == old(events) + [e]
      ensures After(old(events)) == Some(before) ==> Valid()
    {
      hide Enabled, Effect;
      if After(events) == Some(before) {
        AfterSnoc(events, e);
      }
      events := events + [e];
    }

    /**
     Inserts a new job; a job whose key is already in use is answered with the existing one.
     Nothing but the job's identity, schedule, status and counters reaches the table.
     */
    method Publish(id: Id, job: Job) returns (r: Result<(Id, Job), QueueError>)
      modifies this
      ensures r == Err(InvalidJob) <==> id == "" || job.category == "" || job.kind == "" || job.maxAttempts < 1
      ensures r == Err(DuplicateId) ==> id in old(jobs) && !KeyTaken(old(jobs), job.key)
      ensures r.Err? ==> r.error in {InvalidJob, DuplicateId} && jobs == old(jobs)
      ensures r.Ok? && KeyTaken(old(jobs), job.key) ==>
                jobs == old(jobs) && r.value.0 in jobs && r.value.1 == jobs[r.value.0] && r.value.1.key == job.key
      ensures r.Ok? && !KeyTaken(old(jobs), job.key) ==>
                && id !in old(jobs)
                && jobs == old(jobs)[id := Stored(job)] && Inserted(job, jobs[id])
                && r.value == (id, if job.key == "" then job else Stored(job))
      ensures r.Ok? && !KeyTaken(old(jobs), job.key) && Untouched(job) ==>
                Enabled(old(jobs), Event.Publish(id, job)) && jobs == Effect(old(jobs), Event.Publish(id, job))
      ensures old(Valid()) && (Untouched(job) || jobs == old(jobs)) ==> Valid()
      ensures old(events) <= events
    {
      if id == "" || job.category == "" || job.kind == "" || job.maxAttempts < 1 {
        return Err(InvalidJob);
      }
      if !KeyTaken(jobs, job.key) {
        if id in jobs {
          return Err(DuplicateId);
        }
        jobs := jobs[id := Stored(job)];
        if Fresh(job) {
          assert jobs == Effect(old(jobs), Event.Publish(id, job));
          Note(old(jobs), Event.Publish(id, job));
        }
        return Ok((id, if job.key == "" then job else Stored(job)));
      }
      var existing :| existing in jobs && jobs[existing].key == job.key;
      return Ok((existing, jobs[existing]));
    }

    /** Leases the foremost eligible jobs to `owner`. */
    method Lease(owner: Id, categories: set<Id>, limit: int, now: int, duration: int)
      returns (r: Result<seq<(Id, Job)>, QueueError>, ghost rest: set<Id>)
      modifies this
      ensures r.Err? <==> owner == "" || limit < 1 || duration <= 0
      ensures r.Err? ==> jobs == old(jobs)
      ensures r.Ok? ==>
                && Foremost(old(jobs), DueIds(old(jobs), categories, now), Ids(r.value), rest)
                && |r.value| <= limit && (|r.value| < limit ==> rest == {})
                && Happens(old(jobs), Event.Lease(owner, ToSet(Ids(r.value)), now, now + duration), jobs)
                && Returned(r.value, Ids(r.value), jobs)
                && events == old(events) + [Event.Lease(owner, ToSet(Ids(r.value)), now, now + duration)]
      ensures old(Valid()) ==> Valid()
      ensures r.Err? ==> events == old(events)
    {
      if owner == "" || limit < 1 || duration <= 0 {
        return Err(InvalidLease), {};
      }
      var ids;
      ids, rest := SelectJobs(jobs, categories, limit, now);
      var leased := LeaseAll(ids, owner, categories, now, now + duration, rest);
      ReturnedIds(leased, ids, jobs);
      Note(old(jobs), Event.Lease(owner, ToSet(ids), now, now + duration));
      r := Ok(leased);
    }

    /** Updates the selected jobs one by one. */
    method LeaseAll(ids: seq<Id>, owner: Id, ghost categories: set<Id>, now: int, expires: int, ghost rest: set<Id>)
      returns (leased: seq<(Id, Job)>)
      requires owner != "" && Foremost(jobs, DueIds(jobs, categories, now), ids, rest)
      modifies this`jobs
      ensures Happens(old(jobs), Event.Lease(owner, ToSet(ids), now, expires), jobs)
      ensures Returned(leased, ids, jobs)
    {
      ForemostAreEligible(jobs, categories, now, ids, rest);
      NothingLeased(jobs, owner, ids, now, expires);
      LeaseIsEnabled(jobs, ids, owner, now, expires);
      leased := [];
      ghost var before := jobs;
      hide *;
      for i := 0 to |ids|
        invariant jobs == Effect(before, Event.Lease(owner, ToSet(ids[..i]), now, expires))
        invariant Returned(leased, ids[..i], jobs)
      {
        var id := ids[i];
        LeaseOneMore(before, ids, i, owner, now, expires);
        ReturnOneMore(leased, ids, i, jobs, LeaseRow(jobs[id], owner, now, expires));
        jobs := jobs[id := LeaseRow(jobs[id], owner, now, expires)];
        leased := leased + [(id, jobs[id])];
      }
      assert ids[..|ids|] == ids;
      HappensMeans(before, Event.Lease(owner, ToSet(ids), now, expires), jobs);
    }

    method Complete(id: Id, owner: Id, at: int) returns (r: Result<(), QueueError>)
      modifies this
      ensures r.Ok? <==> Enabled(old(jobs), Event.Complete(id, owner, at))
      ensures jobs == if r.Ok? then Effect(old(jobs), Event.Complete(id, owner, at)) else old(jobs)
      ensures events == if r.Ok? then old(events) + [Event.Complete(id, owner, at)] else old(events)
      ensures old(Valid()) ==> Valid()
    {
      if !HeldBy(jobs, id, owner) {
        return Err(NoRowAffected);
      }
      jobs := jobs[id := Close(jobs[id], Completed, at)];
      assert jobs == Effect(old(jobs), Event.Complete(id, owner, at));
      Note(old(jobs), Event.Complete(id, owner, at));
      r := Ok(());
    }

    method RenewLease(id: Id, owner: Id, expiresAt: int) returns (r: Result<(), QueueError>)
      modifies this
      ensures r.Ok? <==> Enabled(old(jobs), Event.Renew(id, owner, expiresAt))
      ensures jobs == if r.Ok? then Effect(old(jobs), Event.Renew(id, owner, expiresAt)) else old(jobs)
      ensures events == if r.Ok? then old(events) + [Event.Renew(id, owner, expiresAt)] else old(events)
      ensures old(Valid()) ==> Valid()
    {
      if !HeldBy(jobs, id, owner) {
        return Err(NoRowAffected);
      }
      jobs := jobs[id := jobs[id].(expiresAt := Some(expiresAt))];
      assert jobs == Effect(old(jobs), Event.Renew(id, owner, expiresAt));
      Note(old(jobs), Event.Renew(id, owner, expiresAt));
      r := Ok(());
    }

    method Retry(id: Id, owner: Id, availableAt: int) returns (r: Result<(), QueueError>)
      modifies this
      ensures r.Ok? <==> Enabled(old(jobs), Event.Retry(id, owner, availableAt))
      ensures jobs == if r.Ok? then Effect(old(jobs), Event.Retry(id, owner, availableAt)) else old(jobs)
      ensures events == if r.Ok? then old(events) + [Event.Retry(id, owner, availableAt)] else old(events)
      ensures old(Valid()) ==> Valid()
    {
      if !HeldBy(jobs, id, owner) {
        return Err(NoRowAffected);
      }
      jobs := jobs[id := RetryRow(jobs[id], availableAt)];
      assert jobs == Effect(old(jobs), Event.Retry(id, owner, availableAt));
      Note(old(jobs), Event.Retry(id, owner, availableAt));
      r := Ok(());
    }

    method Cancel(id: Id, at: int) returns (r: Result<(), QueueError>)
      modifies this
      ensures r.Ok? <==> Enabled(old(jobs), Event.Cancel(id, at))
      ensures jobs == if r.Ok? then Effect(old(jobs), Event.Cancel(id, at)) else old(jobs)
      ensures events == if r.Ok? then old(events) + [Event.Cancel(id, at)] else old(events)
      ensures old(Valid()) ==> Valid()
    {
      if id !in jobs || (jobs[id].status != Pending && jobs[id].status != Leased) {
        return Err(NoRowAffected);
      }
      jobs := jobs[id := Close(jobs[id], Cancelled, at)];
      assert jobs == Effect(old(jobs), Event.Cancel(id, at));
      Note(old(jobs), Event.Cancel(id, at));
      r := Ok(());
    }

    /** Returns expired leases to the queue and reports how many there were. */
    method ReleaseExpired(now: int) returns (count: nat)
      modifies this
      ensures var ids := set id | id in old(jobs) && Expired(old(jobs), id, now);
              && Enabled(old(jobs), Event.Release(ids, now))
              && jobs == Effect(old(jobs), Event.Release(ids, now))
              && count == |ids|
              && events == old(events) + [Event.Release(ids, now)]
      ensures old(Valid()) ==> Valid()
    {
      var ids := set id | id in jobs && Expired(jobs, id, now);
      jobs := map id | id in jobs :: if Expired(jobs, id, now) then ReleaseRow(jobs[id], now) else jobs[id];
      assert jobs == Effect(old(jobs), Event.Release(ids, now));
      Note(old(jobs), Event.Release(ids, now));
      count := |ids|;
    }
  }

  /** The laws of the protocol hold of every table that a repository reaches. */
  lemma RepositoryFollowsProtocol(repository: Repository, id: Id)
    requires repository.Valid()
    ensures Completions(repository.events, id) <= 1 && KeysUnique(repository.jobs)
    ensures id in repository.jobs ==>
              var job := repository.jobs[id];
              && RowOk(repository.events, id, job) && ColumnsOk(repository.events, id, job)
              && (job.attempts > job.maxAttempts <==> LeasedAgain(repository.events, id, job.maxAttempts))
  {
    CompletedAtMostOnce(repository.events, id);
    KeysStayUnique(repository.events);
    if id in repository.jobs {
      RowsFollowHistory(repository.events, id);
      PassesMaximumExactlyWhen(repository.events, id);
      ColumnsFollowHistory(repository.events, id);
    }
  }
}
