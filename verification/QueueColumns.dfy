/** What the columns of a job tell about its history. */
module QueueColumns {
  import opened Graphs
  import opened Outcomes
  import opened Queue

  /** The job as it was published. */
  function Published(events: seq<Event>, id: Id): Option<Job> {
    if events == [] then None else
      var n := |events| - 1;
      if events[n].Publish? && events[n].id == id then Some(events[n].job) else Published(events[..n], id)
  }

  /** When the job was leased for the first time. */
  function FirstLease(events: seq<Event>, id: Id): Option<int> {
    if events == [] then None else
      var n := |events| - 1;
      var before := FirstLease(events[..n], id);
      if before.None? && events[n].Lease? && id in events[n].ids then Some(events[n].now) else before
  }

  /** From when on the job was last offered to workers: as published, as a retry asks, or when its lease expired. */
  function LastOffer(events: seq<Event>, id: Id): Option<int> {
    if events == [] then None else
      var n := |events| - 1;
      match events[n]
      case Publish(x, job) => if x == id then Some(job.availableAt) else LastOffer(events[..n], id)
      case Retry(x, _, at) => if x == id then Some(at) else LastOffer(events[..n], id)
      case Release(ids, now) => if id in ids then Some(now) else LastOffer(events[..n], id)
      case _ => LastOffer(events[..n], id)
  }

  /** Until when the job was last promised to a worker. */
  function LastPromise(events: seq<Event>, id: Id): Option<int> {
    if events == [] then None else
      var n := |events| - 1;
      match events[n]
      case Lease(_, ids, _, until) => if id in ids then Some(until) else LastPromise(events[..n], id)
      case Renew(x, _, until) => if x == id then Some(until) else LastPromise(events[..n], id)
      case _ => LastPromise(events[..n], id)
  }

  /** When a worker or a user last finished with the job. */
  function LastEnd(events: seq<Event>, id: Id): Option<int> {
    if events == [] then None else
      var n := |events| - 1;
      match events[n]
      case Complete(x, _, at) => if x == id then Some(at) else LastEnd(events[..n], id)
      case Cancel(x, at) => if x == id then Some(at) else LastEnd(events[..n], id)
      case Retry(x, _, at) => if x == id then Some(at) else LastEnd(events[..n], id)
      case _ => LastEnd(events[..n], id)
  }

  /** A job keeps what it was published with, whatever happens to it. */
  ghost predicate SameJob(a: Job, b: Job) {
    && a.category == b.category && a.kind == b.kind && a.priority == b.priority
    && a.createdAt == b.createdAt && a.maxAttempts == b.maxAttempts && a.key == b.key
  }

  ghost predicate ColumnsOk(events: seq<Event>, id: Id, job: Job) {
    && Published(events, id).Some? && SameJob(job, Published(events, id).value)
    && job.startedAt == FirstLease(events, id)
    && (job.status == Pending ==> Some(job.availableAt) == LastOffer(events, id))
    && (job.status == Leased ==> job.expiresAt == LastPromise(events, id))
    && (if Terminal(job.status) then job.completedAt == LastEnd(events, id) && job.completedAt.Some?
        else job.completedAt.None?)
  }

  lemma {:induction false} NotYetPublished(events: seq<Event>, id: Id)
    requires After(events).Some? && id !in After(events).value
    ensures FirstLease(events, id).None?
  {
    if events != [] {
      NotYetPublished(events[..|events| - 1], id);
    }
  }

  lemma ColumnsStep(events: seq<Event>, t: Table, id: Id)
    requires events != [] && id in t && Enabled(t, events[|events| - 1])
    requires ColumnsOk(events[..|events| - 1], id, t[id])
    ensures ColumnsOk(events, id, RowAfter(t[id], id, events[|events| - 1]))
  {
  }

  /** After every run, the columns of a job are those of its publication and of its latest events. */
  lemma {:induction false} ColumnsFollowHistory(events: seq<Event>, id: Id)
    requires After(events).Some? && id in After(events).value
    ensures ColumnsOk(events, id, After(events).value[id])
  {
    var n := |events| - 1;
    var before, e := After(events[..n]).value, events[n];
    if id in before {
      ColumnsFollowHistory(events[..n], id);
      ColumnsStep(events, before, id);
      hide ColumnsOk;
      assert After(events).value[id] == RowAfter(before[id], id, e);
    } else {
      NotYetPublished(events[..n], id);
    }
  }

  // ---------- Expiry ----------

  /** Releasing returns exactly the leases whose time has come, and leaves every other row alone. */
  lemma ReleasesExactlyTheExpired(t: Table, ids: set<Id>, now: int, id: Id)
    requires Enabled(t, Release(ids, now)) && id in t
    ensures var row, row' := t[id], Effect(t, Release(ids, now))[id];
            if row.status == Leased && row.expiresAt.Some? && row.expiresAt.value <= now
            then && row'.status == Pending && row'.availableAt == now && row'.owner == "" && row'.expiresAt == None
                 && SameJob(row, row') && row'.attempts == row.attempts
            else row' == row
  {
  }

  /** Only its holder can renew, complete or retry a job, and only while it is leased. */
  lemma OnlyTheHolderActs(t: Table, id: Id, owner: Id, at: int)
    ensures var held := id in t && t[id].status == Leased && t[id].owner == owner;
            && (Enabled(t, Renew(id, owner, at)) <==> held)
            && (Enabled(t, Complete(id, owner, at)) <==> held)
            && (Enabled(t, Retry(id, owner, at)) <==> held)
  {
  }
}
