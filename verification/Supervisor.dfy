/**
 The execution supervisor: it polls running activities, starts activities whose predecessors
 have completed, at most `maxParallel` at a time, and notices when nothing can move any more.
 */
module Supervisor {
  import opened Graphs
  import opened Outcomes
  import opened Dependencies
  import opened ActivityController
  import opened SupervisorTables
  import opened RuntimeStarts
  import opened Ordering

  // ---------- The parts of one round ----------

  datatype Failure = ContextDone | InspectionFailed(id: Id) | ActivityFailed(id: Id) | TaskNotSaved(id: Id)
                   | StartFailed(id: Id) | CannotProgress

  /** What the outside world answers during one round. */
  datatype Round = Round(
    unreadable: set<Id>,             // handles that cannot be looked up
    news: map<Id, Report>,           // what runtimes report; silence counts as failure
    storeFails: set<Id>,             // handles that cannot be saved
    taskStoreFails: set<Id>,
    answers: map<Id, StartAnswers>   // how starts go; no answer counts as rejection
  )

  const NO_ANSWERS := StartAnswers(false, false, false, None, false)

  function AnswersFor(round: Round, id: Id): StartAnswers {
    if id in round.answers then round.answers[id] else NO_ANSWERS
  }

  /** Nothing in the way of starting `id`. */
  predicate Accepts(run: Id, round: Round, id: Id) {
    var answers := AnswersFor(round, id);
    answers.accepted && answers.storeReadable && Starts(Key(run, id), answers)
  }

  predicate Failing(status: HandleStatus) {
    status == Failed || status == Stopped
  }

  /** The round gives a reason for the failure. */
  ghost predicate Blamed(s: Setting, round: Round, failure: Failure) {
    match failure
    case ContextDone => false
    case CannotProgress => false
    case InspectionFailed(id) => id in s.activities && (id in round.unreadable || id in round.storeFails)
    case ActivityFailed(id) => id in s.activities && (id in round.news ==> Failing(round.news[id].handle.status))
    case TaskNotSaved(id) => id in s.activities && id in round.taskStoreFails
    case StartFailed(id) => id in s.activities && !Accepts(s.run, round, id)
  }

  /** Only a running activity can be reported to have failed. */
  predicate OfRunning(failure: Failure, running: map<Id, Handle>) {
    failure.ActivityFailed? ==> failure.id in running
  }

  predicate GoodNews(news: map<Id, Report>, id: Id) {
    id in news && !Failing(news[id].handle.status)
  }

  predicate ReportedComplete(news: map<Id, Report>, id: Id) {
    id in news && news[id].handle.status == Completed
  }

  /** The tables after the news of a running activity. */
  function AfterNews(news: map<Id, Report>, t: Tables, id: Id): Tables {
    if ReportedComplete(news, id) then Finish(t, id) else t
  }

  /** What polling has done once only `todo` is left. */
  ghost predicate PolledBut(t0: Tables, t: Tables, news: map<Id, Report>, todo: set<Id>) {
    && (forall id <- t0.running :: id in todo || GoodNews(news, id))
    && (forall id :: id in t.running <==> id in t0.running && (id in todo || !ReportedComplete(news, id)))
    && (forall id :: id in t.completed <==>
                     id in t0.completed || (id in t0.running && id !in todo && ReportedComplete(news, id)))
    && (forall id :: id in t.tasks <==> id in t0.tasks)
  }

  /** Exactly the running activities that are reported complete have completed. */
  ghost predicate Polled(t0: Tables, t: Tables, news: map<Id, Report>) {
    PolledBut(t0, t, news, {})
  }

  lemma PollOne(t0: Tables, t: Tables, news: map<Id, Report>, todo: set<Id>, id: Id)
    requires PolledBut(t0, t, news, todo) && id in todo && id in t0.running && id in t0.tasks
    ensures GoodNews(news, id) ==> PolledBut(t0, AfterNews(news, t, id), news, todo - {id})
  {
  }

  lemma NothingPolled(t: Tables, news: map<Id, Report>)
    ensures PolledBut(t, t, news, t.running.Keys)
  {
  }

  lemma BlamedWhen(s: Setting, round: Round, id: Id)
    requires id in s.activities
    ensures id in round.unreadable || id in round.storeFails ==> Blamed(s, round, InspectionFailed(id))
    ensures id !in round.news || round.news[id].handle.status == Failed || round.news[id].handle.status == Stopped ==>
              Blamed(s, round, ActivityFailed(id))
    ensures id in round.taskStoreFails ==> Blamed(s, round, TaskNotSaved(id))
    ensures !Accepts(s.run, round, id) ==> Blamed(s, round, StartFailed(id))
    ensures id in round.news && Failing(round.news[id].handle.status) ==>
              round.news[id].handle.status == Failed || round.news[id].handle.status == Stopped
  {
  }

  /** Nothing went wrong when `id` was polled. */
  ghost predicate Calm(round: Round, id: Id) {
    && id !in round.unreadable && id !in round.storeFails && GoodNews(round.news, id)
    && (ReportedComplete(round.news, id) ==> id !in round.taskStoreFails)
  }

  lemma CalmWhen(round: Round, id: Id)
    requires id !in round.unreadable && id !in round.storeFails && GoodNews(round.news, id)
    requires ReportedComplete(round.news, id) ==> id !in round.taskStoreFails
    ensures Calm(round, id)
  {
  }

  /** Asks for one running activity; `completed` says that it is to be entered as completed. */
  method Ask(s: Setting, id: Id, controller: Controller, round: Round)
    returns (failure: Option<Failure>, completed: bool, ghost filed: Option<Key>)
    requires controller.Valid() && id in s.activities && Key(s.run, id) in controller.handles
    modifies controller
    ensures controller.Valid() && old(controller.handles.Keys) <= controller.handles.Keys
    ensures controller.log
         == if filed.Some? then old(controller.log) + [HandleSaved(filed.value)] else old(controller.log)
    ensures failure.None? ==> GoodNews(round.news, id) && (completed <==> ReportedComplete(round.news, id))
    ensures failure.None? ==> Calm(round, id)
    ensures failure.Some? ==>
              Blamed(s, round, failure.value) && (failure.value.ActivityFailed? ==> failure.value.id == id)
  {
    BlamedWhen(s, round, id);
    assert id in round.news && !Failing(round.news[id].handle.status) ==>
        GoodNews(round.news, id) && (ReportedComplete(round.news, id) <==> round.news[id].handle.status == Completed);
    hide *;
    failure, completed, filed := None, false, None;
    var news := if id in round.news then Some(round.news[id]) else None;
    var observed := controller.Inspect(Key(s.run, id), id !in round.unreadable, news, id !in round.storeFails);
    if observed.None? {
      return Some(InspectionFailed(id)), false, None;
    }
    filed := Some(if news.Some? then news.value.key else Key(s.run, id));
    match observed.value.status {
      case Completed =>
        if id in round.taskStoreFails {
          failure := Some(TaskNotSaved(id));
        }
        completed := true;
      case Failed => failure := Some(ActivityFailed(id));
      case Stopped => failure := Some(ActivityFailed(id));
      case _ =>
    }
    if failure.None? {
      CalmWhen(round, id);
    }
  }

  /** Polls one running activity. */
  method InspectOne(s: Setting, id: Id, t0: Tables, controller: Controller, round: Round,
                    ghost log0: seq<Step>, ghost base: nat)
    returns (failure: Option<Failure>, t: Tables, ghost log: seq<Step>)
    requires controller.Valid() && OnTrack(s, base, controller.log, controller.handles, t0, log0)
    requires SettledSince(base, controller.log) && id in t0.running
    modifies controller
    ensures controller.Valid() && old(controller.log) <= controller.log
    ensures OnTrack(s, base, controller.log, controller.handles, t, log) && log0 <= log
    ensures SettledSince(base, controller.log)
    ensures failure.None? ==> GoodNews(round.news, id) && t == AfterNews(round.news, t0, id) && Calm(round, id)
    ensures failure.Some? ==>
              Blamed(s, round, failure.value) && (failure.value.ActivityFailed? ==> failure.value.id == id)
  {
    PollingIsPossible(s, base, controller.log, controller.handles, t0, log0);
    assert AfterNews(round.news, t0, id) == if ReportedComplete(round.news, id) then Finish(t0, id) else t0;
    hide *;
    ghost var events, handles := controller.log, controller.handles;
    var completed;
    ghost var filed;
    failure, completed, filed := Ask(s, id, controller, round);
    OnTrackAsked(s, base, events, handles, t0, log0, filed, controller.log, controller.handles);
    t, log := t0, log0;
    if failure.None? && completed {
      OnTrackFinished(s, base, controller.log, controller.handles, t0, log0, id);
      t, log := Finish(t0, id), log0 + [Finished(id)];
    }
  }

  lemma PollingIsPossible(s: Setting, base: nat, events: seq<Event>, handles: map<Key, Handle>, t: Tables,
                          log: seq<Step>)
    requires OnTrack(s, base, events, handles, t, log)
    ensures forall id <- t.running :: id in s.activities && Key(s.run, id) in handles
  {
    SoundRunning(s, t, log);
  }

  lemma OnTrackAsked(s: Setting, base: nat, events: seq<Event>, handles: map<Key, Handle>, t: Tables, log: seq<Step>,
                     filed: Option<Key>, events': seq<Event>, handles': map<Key, Handle>)
    requires OnTrack(s, base, events, handles, t, log) && SettledSince(base, events) && handles.Keys <= handles'.Keys
    requires events' == if filed.Some? then events + [HandleSaved(filed.value)] else events
    ensures OnTrack(s, base, events', handles', t, log) && SettledSince(base, events')
  {
    if filed.Some? {
      OnTrackSaved(s, base, events, handles, t, log, HandleSaved(filed.value), handles');
    }
  }

  lemma OnTrackFinished(s: Setting, base: nat, events: seq<Event>, handles: map<Key, Handle>, t: Tables, log: seq<Step>,
                        id: Id)
    requires OnTrack(s, base, events, handles, t, log)
    ensures id in t.running ==> OnTrack(s, base, events, handles, Finish(t, id), log + [Finished(id)])
  {
    OnTrackMeans(s, base, events, handles, t, log);
    FinishIsSound(s, t, log, id);
    hide Sound, Tracked;
    if id in t.running {
      OnTrackOnward(s, base, events, handles, t, log, Finish(t, id), log + [Finished(id)]);
    }
  }

  /** Polls every running activity, in any order. */
  method InspectRunning(s: Setting, t0: Tables, controller: Controller, round: Round,
                        ghost log0: seq<Step>, ghost base: nat)
    returns (failure: Option<Failure>, t: Tables, ghost log: seq<Step>)
    requires controller.Valid() && OnTrack(s, base, controller.log, controller.handles, t0, log0)
    requires SettledSince(base, controller.log)
    modifies controller
    ensures controller.Valid() && old(controller.log) <= controller.log
    ensures OnTrack(s, base, controller.log, controller.handles, t, log) && log0 <= log
    ensures SettledSince(base, controller.log)
    ensures failure.None? ==> Polled(t0, t, round.news) && forall id <- t0.running :: Calm(round, id)
    ensures failure.Some? ==> Blamed(s, round, failure.value) && OfRunning(failure.value, t0.running)
  {
    NothingPolled(t0, round.news);
    assert CalmBut(round, t0.running, t0.running.Keys);
    OnTrackMeans(s, base, controller.log, controller.handles, t0, log0);
    SoundRunning(s, t0, log0);
    hide *;
    t, log, failure := t0, log0, None;
    var todo := t0.running.Keys;
    while todo != {}
      invariant controller.Valid() && old(controller.log) <= controller.log
      invariant OnTrack(s, base, controller.log, controller.handles, t, log) && SettledSince(base, controller.log)
      invariant log0 <= log && failure.None?
      invariant PolledBut(t0, t, round.news, todo) && todo <= t0.running.Keys
      invariant CalmBut(round, t0.running, todo)
    {
      var id :| id in todo;
      StillRunning(t0, t, round.news, todo, id);
      PollOne(t0, t, round.news, todo, id);
      failure, t, log := InspectOne(s, id, t, controller, round, log, base);
      if failure.Some? {
        AskedOfRunning(failure.value, t0.running, id);
        return;
      }
      CalmOne(round, t0.running, todo, id);
      todo := todo - {id};
    }
    PolledAll(t0, t, round.news, todo);
    CalmAll(round, t0.running, todo);
  }

  /** Nothing went wrong with what was polled; only `todo` is left. */
  ghost predicate CalmBut(round: Round, running: map<Id, Handle>, todo: set<Id>) {
    forall id <- running :: id in todo || Calm(round, id)
  }

  lemma CalmOne(round: Round, running: map<Id, Handle>, todo: set<Id>, id: Id)
    requires CalmBut(round, running, todo) && Calm(round, id)
    ensures CalmBut(round, running, todo - {id})
  {
  }

  lemma CalmAll(round: Round, running: map<Id, Handle>, todo: set<Id>)
    requires CalmBut(round, running, todo) && todo == {}
    ensures forall id <- running :: Calm(round, id)
  {
  }

  lemma AskedOfRunning(failure: Failure, running: map<Id, Handle>, id: Id)
    requires id in running && (failure.ActivityFailed? ==> failure.id == id)
    ensures OfRunning(failure, running)
  {
  }

  lemma StillRunning(t0: Tables, t: Tables, news: map<Id, Report>, todo: set<Id>, id: Id)
    requires PolledBut(t0, t, news, todo) && id in todo && id in t0.running
    ensures id in t.running
  {
  }

  lemma PolledAll(t0: Tables, t: Tables, news: map<Id, Report>, todo: set<Id>)
    requires PolledBut(t0, t, news, todo) && todo == {}
    ensures Polled(t0, t, news)
  {
  }

  lemma SoundRunning(s: Setting, t: Tables, log: seq<Step>)
    requires Sound(s, t, log)
    ensures forall id <- t.running :: id in t.tasks && id in s.activities && id !in t.completed
  {
  }

  lemma SoundTables(s: Setting, t: Tables, log: seq<Step>)
    requires Sound(s, t, log)
    ensures |t.running| <= s.maxParallel
    ensures forall id <- t.tasks :: t.tasks[id].activity == id
  {
    assert log[..|log|] == log;
  }

  predicate IsReady(s: Setting, t: Tables, id: Id) {
    && id in s.activities
    && id !in t.completed && id !in t.running && id !in t.tasks
    && forall p <- PredecessorsOf(s.dependencies, id) :: p in t.completed
  }

  /** The map answers with the predecessors of every activity. */
  ghost predicate Indexes(predecessors: map<Id, seq<Id>>, dependencies: seq<Dependency>) {
    forall x :: Lookup(predecessors, x) == PredecessorsOf(dependencies, x)
  }

  /** Activities that may start, once each and in alphabetical order. */
  method ReadyActivities(s: Setting, predecessors: map<Id, seq<Id>>, t: Tables) returns (ready: seq<Id>)
    requires Indexes(predecessors, s.dependencies)
    ensures Distinct(ready) && Alphabetical(ready) && forall id :: id in ready <==> IsReady(s, t, id)
  {
    var found: seq<Id> := [];
    var todo := s.activities;
    while todo != {}
      invariant todo <= s.activities
      invariant Distinct(found) && forall id :: id in found <==> id !in todo && IsReady(s, t, id)
    {
      var id :| id in todo;
      todo := todo - {id};
      if id in t.completed || id in t.running || id in t.tasks {
        continue;
      }
      assert Lookup(predecessors, id) == PredecessorsOf(s.dependencies, id);
      if forall p <- Lookup(predecessors, id) :: p in t.completed {
        DistinctSnoc(found, id);
        found := found + [id];
      }
    }
    ready := SortIds(found);
  }

  /** Starts one activity and enters it into the tables. */
  method StartOne(s: Setting, id: Id, t0: Tables, controller: Controller, round: Round,
                  ghost log0: seq<Step>, ghost base: nat)
    returns (failure: Option<Failure>, t: Tables, ghost log: seq<Step>)
    requires controller.Valid() && OnTrack(s, base, controller.log, controller.handles, t0, log0)
    requires SettledSince(base, controller.log)
    requires IsReady(s, t0, id) && |t0.running| < s.maxParallel
    modifies controller
    ensures controller.Valid() && old(controller.log) <= controller.log
    ensures OnTrack(s, base, controller.log, controller.handles, t, log) && log0 <= log
    ensures failure.None? ==> SettledSince(base, controller.log)
    ensures failure.None? ==> OneMore(t0, t, id) && |t.running| <= |t0.running| + 1 && id !in round.taskStoreFails
    ensures failure.None? ==> Key(s.run, id) in controller.handles
                              && (id in t.completed <==> controller.handles[Key(s.run, id)].status == Completed)
    ensures failure.Some? ==> Blamed(s, round, failure.value) && !failure.value.ActivityFailed?
    ensures failure == Some(StartFailed(id)) && id !in round.storeFails ==>
              FailureRecorded(s.run, controller.handles, id)
  {
    BlamedWhen(s, round, id);
    ghost var events, handles := controller.log, controller.handles;
    var r := TryStart(s, id, t0, controller, round, log0, base);
    hide *;
    t, log, failure := t0, log0, None;
    if r.Err? {
      return Some(StartFailed(id)), t, log;
    }
    OnTrackEntered(s, base, controller.log, controller.handles, t0, log0, id, r.value);
    t, log := Entered(t, id, r.value), log + EnteredSteps(id, r.value);
    if id in round.taskStoreFails {
      failure := Some(TaskNotSaved(id));
    }
  }

  ghost predicate FailureRecorded(run: Id, handles: map<Key, Handle>, id: Id) {
    Key(run, id) in handles && handles[Key(run, id)] == Handle(run, id, HandleStatus.Failed)
  }

  lemma RecordFailure(run: Id, handles: map<Key, Handle>, id: Id)
    requires Key(run, id) in handles && handles[Key(run, id)] == Handle(run, id, HandleStatus.Failed)
    ensures FailureRecorded(run, handles, id)
  {
  }

  /** Asks the controller to start an activity; a failure is recorded as a failed handle. */
  method TryStart(s: Setting, id: Id, ghost t: Tables, controller: Controller, round: Round,
                  ghost log: seq<Step>, ghost base: nat)
    returns (r: Result<Handle, Refusal>)
    requires controller.Valid() && OnTrack(s, base, controller.log, controller.handles, t, log)
    requires SettledSince(base, controller.log) && IsReady(s, t, id)
    modifies controller
    ensures controller.Valid() && old(controller.log) <= controller.log
    ensures OnTrack(s, base, controller.log, controller.handles, t, log)
    ensures r.Ok? ==> SettledSince(base, controller.log)
    ensures r.Ok? ==> Key(s.run, id) in controller.handles && controller.handles[Key(s.run, id)] == r.value
    ensures r.Err? ==> !Accepts(s.run, round, id)
    ensures r.Err? && id !in round.storeFails ==> FailureRecorded(s.run, controller.handles, id)
  {
    ghost var events, handles := controller.log, controller.handles;
    var key := Key(s.run, id);
    ReadyIsDue(s, base, events, handles, t, log, id);
    if key !in handles {
      OnTrackStarted(s, base, events, handles, t, log, key);
    }
    r := controller.Start(key, AnswersFor(round, id));
    StartedOnTrack(s, base, events, handles, t, log, key, r, controller.log, controller.handles);
    hide *;
    if r.Err? && id !in round.storeFails {
      handles := controller.handles;
      OnTrackSaved(s, base, controller.log, handles, t, log, HandleSaved(key),
                   handles[key := Handle(s.run, id, Failed)]);
      controller.Save(key, Handle(s.run, id, Failed));
      RecordFailure(s.run, controller.handles, id);
    }
  }

  /** However a start ends, the delivery stays on track. */
  lemma StartedOnTrack(
    s: Setting, base: nat, events: seq<Event>, handles: map<Key, Handle>, t: Tables, log: seq<Step>, key: Key,
    r: Result<Handle, Refusal>, events': seq<Event>, handles': map<Key, Handle>)
    requires OnTrack(s, base, events, handles, t, log) && SettledSince(base, events)
    requires key !in handles ==>
               && OnTrack(s, base, events + [RuntimeStarted(key)], handles, t, log)
               && SettledSince(base, events + [RuntimeStarted(key)] + [HandleSaved(key)])
    requires key in handles ==> events' == events && handles' == handles
    requires r.Ok? && key !in handles ==> events' == events + [RuntimeStarted(key), HandleSaved(key)]
    requires r.Err? ==> events' == events + LeavesBehind(key, r.error) && handles' == handles
    requires handles.Keys <= handles'.Keys
    ensures OnTrack(s, base, events', handles', t, log) && (r.Ok? ==> SettledSince(base, events'))
  {
    var begun := events + [RuntimeStarted(key)];
    assert begun + [HandleSaved(key)] == events + [RuntimeStarted(key), HandleSaved(key)];
    assert begun + [StopAsked(key)] == events + [RuntimeStarted(key), StopAsked(key)];
    assert events + [] == events;
    hide OnTrack, SettledSince;
    if key !in handles {
      match r
      case Ok(_) => OnTrackSaved(s, base, begun, handles, t, log, HandleSaved(key), handles');
      case Err(NotSaved) => OnTrackSaved(s, base, begun, handles, t, log, StopAsked(key), handles');
      case Err(_) =>
    }
  }

  lemma ReadyIsDue(s: Setting, base: nat, events: seq<Event>, handles: map<Key, Handle>, t: Tables, log: seq<Step>,
                   id: Id)
    requires OnTrack(s, base, events, handles, t, log) && IsReady(s, t, id)
    ensures Due(s, Key(s.run, id), log)
  {
    OnTrackMeans(s, base, events, handles, t, log);
    hide InOrder, Bounded, Active, Partition;
  }

  lemma OnTrackEntered(s: Setting, base: nat, events: seq<Event>, handles: map<Key, Handle>, t: Tables, log: seq<Step>,
                       id: Id, handle: Handle)
    requires OnTrack(s, base, events, handles, t, log) && IsReady(s, t, id) && |t.running| < s.maxParallel
    requires Key(s.run, id) in handles
    ensures OnTrack(s, base, events, handles, Entered(t, id, handle), log + EnteredSteps(id, handle))
    ensures OneMore(t, Entered(t, id, handle), id) && |Entered(t, id, handle).running| <= |t.running| + 1
    ensures id in Entered(t, id, handle).completed <==> handle.status == Completed
  {
    OnTrackMeans(s, base, events, handles, t, log);
    EnteredIsSound(s, t, log, id, handle);
    EnteredIsOneMore(s.run, t, id, handle, handles);
    hide Sound, Tracked, Entered, OneMore, EnteredSteps;
    OnTrackOnward(s, base, events, handles, t, log, Entered(t, id, handle), log + EnteredSteps(id, handle));
  }

  /** `id` was entered into the tables and nothing was lost. */
  ghost predicate OneMore(before: Tables, after: Tables, id: Id) {
    && (forall x :: x in after.tasks <==> x in before.tasks || x == id)
    && (forall x :: x in before.completed ==> x in after.completed)
    && (forall x :: x in after.completed ==> x in before.completed || x == id)
    && (forall x :: x in before.running ==> x in after.running)
    && (forall x :: x in after.running ==> x in before.running || x == id)
  }

  /** A handle that is already complete finishes its activity at once. */
  function Entered(t: Tables, id: Id, handle: Handle): Tables {
    if handle.status == Completed then Finish(Begin(t, id, handle), id) else Begin(t, id, handle)
  }

  ghost function EnteredSteps(id: Id, handle: Handle): seq<Step> {
    if handle.status == Completed then [Started(id), Finished(id)] else [Started(id)]
  }

  lemma EnteredIsSound(s: Setting, t: Tables, log: seq<Step>, id: Id, handle: Handle)
    requires Sound(s, t, log) && IsReady(s, t, id) && |t.running| < s.maxParallel
    ensures Sound(s, Entered(t, id, handle), log + EnteredSteps(id, handle))
  {
    hide Sound;
    BeginIsSound(s, t, log, id, handle);
    if handle.status == Completed {
      assert id in Begin(t, id, handle).running;
      FinishIsSound(s, Begin(t, id, handle), log + [Started(id)], id);
      assert log + [Started(id)] + [Finished(id)] == log + [Started(id), Finished(id)];
    }
  }

  lemma EnteredIsOneMore(run: Id, t: Tables, id: Id, handle: Handle, handles: map<Key, Handle>)
    requires id !in t.running && id !in t.completed && Handled(run, t.running, handles) && Key(run, id) in handles
    ensures OneMore(t, Entered(t, id, handle), id) && |Entered(t, id, handle).running| <= |t.running| + 1
    ensures id in Entered(t, id, handle).completed <==> handle.status == Completed
    ensures Handled(run, Entered(t, id, handle).running, handles)
  {
    SizeWith(t.running, id, handle);
    if handle.status == Completed {
      SizeWithout(t.running[id := handle], id);
    }
  }

  /** Starts activities that are ready, stopping at the first that does not start. */
  method StartReady(s: Setting, ready: seq<Id>, t0: Tables, controller: Controller, round: Round,
                    ghost log0: seq<Step>, ghost base: nat)
    returns (failure: Option<Failure>, t: Tables, ghost log: seq<Step>)
    requires controller.Valid() && OnTrack(s, base, controller.log, controller.handles, t0, log0)
    requires SettledSince(base, controller.log)
    requires Distinct(ready) && (forall id <- ready :: IsReady(s, t0, id)) && |t0.running| + |ready| <= s.maxParallel
    modifies controller
    ensures controller.Valid() && old(controller.log) <= controller.log
    ensures OnTrack(s, base, controller.log, controller.handles, t, log) && log0 <= log
    ensures failure.None? ==> SettledSince(base, controller.log) && Grown(t0, t, ready)
    ensures failure.None? ==> TasksSaved(round, ready)
    ensures failure.Some? ==> Blamed(s, round, failure.value) && !failure.value.ActivityFailed?
    ensures ready == [] ==> t == t0 && failure.None?
  {
    t, log, failure := t0, log0, None;
    hide *;
    NoneStarted(s, round, t0, ready);
    for i := 0 to |ready|
      invariant controller.Valid() && old(controller.log) <= controller.log
      invariant OnTrack(s, base, controller.log, controller.handles, t, log) && log0 <= log
      invariant SettledSince(base, controller.log) && failure.None?
      invariant Underway(s, round, t0, t, ready, i)
    {
      failure, t, log := StartNext(s, ready, i, t0, t, controller, round, log, base);
      if failure.Some? {
        return;
      }
    }
    AllStarted(s, round, t0, t, ready);
  }

  /** Starts the next of the ready activities. */
  method StartNext(s: Setting, ready: seq<Id>, i: nat, ghost t0: Tables, t: Tables, controller: Controller,
                   round: Round, ghost log: seq<Step>, ghost base: nat)
    returns (failure: Option<Failure>, t': Tables, ghost log': seq<Step>)
    requires controller.Valid() && OnTrack(s, base, controller.log, controller.handles, t, log)
    requires SettledSince(base, controller.log) && Underway(s, round, t0, t, ready, i)
    requires i < |ready| && Distinct(ready) && forall id <- ready :: IsReady(s, t0, id)
    modifies controller
    ensures controller.Valid() && old(controller.log) <= controller.log
    ensures OnTrack(s, base, controller.log, controller.handles, t', log') && log <= log'
    ensures failure.None? ==> SettledSince(base, controller.log) && Underway(s, round, t0, t', ready, i + 1)
    ensures failure.Some? ==> Blamed(s, round, failure.value) && !failure.value.ActivityFailed?
  {
    hide *;
    NextIsReady(s, base, controller.log, controller.handles, round, t0, t, log, ready, i);
    failure, t', log' := StartOne(s, ready[i], t, controller, round, log, base);
    if failure.None? {
      OneMoreUnderway(s, round, t0, t, t', ready, i);
    }
  }

  /** The first `i` of the ready activities have been started. */
  ghost predicate Underway(s: Setting, round: Round, t0: Tables, t: Tables, ready: seq<Id>, i: nat) {
    && i <= |ready|
    && Grown(t0, t, ready[..i]) && TasksSaved(round, ready[..i])
    && |t.running| + |ready| - i <= s.maxParallel
    && (i == 0 ==> t == t0)
  }

  lemma NoneStarted(s: Setting, round: Round, t0: Tables, ready: seq<Id>)
    requires |t0.running| + |ready| <= s.maxParallel
    ensures Underway(s, round, t0, t0, ready, 0)
  {
  }

  lemma NextIsReady(s: Setting, base: nat, events: seq<Event>, handles: map<Key, Handle>, round: Round, t0: Tables,
                    t: Tables, log: seq<Step>, ready: seq<Id>, i: nat)
    requires OnTrack(s, base, events, handles, t, log) && Underway(s, round, t0, t, ready, i)
    requires i < |ready| && Distinct(ready) && forall id <- ready :: IsReady(s, t0, id)
    ensures IsReady(s, t, ready[i]) && |t.running| < s.maxParallel
  {
    hide OnTrack, Grown, IsReady, Distinct;
    OnTrackMeans(s, base, events, handles, t, log);
    SoundPartition(s, t, log);
    assert ready[i] in ready;
    StillReady(s, t0, t, ready, i);
  }

  lemma OneMoreUnderway(s: Setting, round: Round, t0: Tables, t: Tables, t': Tables, ready: seq<Id>, i: nat)
    requires Underway(s, round, t0, t, ready, i) && i < |ready| && OneMore(t, t', ready[i])
    requires |t'.running| <= |t.running| + 1 && ready[i] !in round.taskStoreFails
    ensures Underway(s, round, t0, t', ready, i + 1)
  {
    hide Grown, OneMore, TasksSaved;
    OneMoreGrown(t0, t, t', ready, i);
    OneMoreSaved(round, ready, i);
  }

  lemma AllStarted(s: Setting, round: Round, t0: Tables, t: Tables, ready: seq<Id>)
    requires Underway(s, round, t0, t, ready, |ready|)
    ensures Grown(t0, t, ready) && TasksSaved(round, ready) && (ready == [] ==> t == t0)
  {
    assert ready[..|ready|] == ready;
  }

  /** The tasks of `ids` could be saved. */
  ghost predicate TasksSaved(round: Round, ids: seq<Id>) {
    forall id <- ids :: id !in round.taskStoreFails
  }

  lemma OneMoreSaved(round: Round, ids: seq<Id>, i: nat)
    requires i < |ids| && TasksSaved(round, ids[..i]) && ids[i] !in round.taskStoreFails
    ensures TasksSaved(round, ids[..i + 1])
  {
  }

  /** `ids` were entered into the tables and nothing was lost. */
  ghost predicate Grown(before: Tables, after: Tables, ids: seq<Id>) {
    && (forall x :: x in after.tasks <==> x in before.tasks || x in ids)
    && (forall x :: x in before.completed ==> x in after.completed)
    && (forall x :: x in after.completed ==> x in before.completed || x in ids)
    && (forall x :: x in before.running ==> x in after.running)
    && (forall x :: x in after.running ==> x in before.running || x in ids)
  }

  lemma GrownByNothing(t: Tables)
    ensures Grown(t, t, [])
  {
  }

  lemma SoundPartition(s: Setting, t: Tables, log: seq<Step>)
    requires Sound(s, t, log)
    ensures Partition(t.running, t.completed, t.tasks)
  {
  }

  lemma OneMoreGrown(t0: Tables, t: Tables, t': Tables, ready: seq<Id>, i: nat)
    requires i < |ready| && Grown(t0, t, ready[..i]) && OneMore(t, t', ready[i])
    ensures Grown(t0, t', ready[..i + 1])
  {
  }

  /** What was ready before others started is ready still. */
  lemma StillReady(s: Setting, t0: Tables, t: Tables, ready: seq<Id>, i: nat)
    requires i < |ready| && Distinct(ready) && IsReady(s, t0, ready[i]) && Grown(t0, t, ready[..i])
    requires Partition(t.running, t.completed, t.tasks)
    ensures IsReady(s, t, ready[i])
  {
  }

  // ---------- The trace ----------

  datatype Trace = Trace(tasks: seq<Task>, feasible: bool)

  function Activities(tasks: seq<Task>): seq<Id> {
    seq(|tasks|, i requires 0 <= i < |tasks| => tasks[i].activity)
  }

  /** `list` holds each task of the table exactly once, in alphabetical order of the activities. */
  ghost predicate Lists(list: seq<Task>, tasks: map<Id, Task>) {
    && Distinct(Activities(list)) && Alphabetical(Activities(list))
    && forall task :: task in list <==> task.activity in tasks && tasks[task.activity] == task
  }

  /** The tasks of a trace, one per table entry. */
  method ListTasks(tasks: map<Id, Task>) returns (list: seq<Task>)
    requires forall id <- tasks :: tasks[id].activity == id
    ensures Lists(list, tasks)
  {
    var found: seq<Id> := [];
    var todo := tasks.Keys;
    while todo != {}
      invariant todo <= tasks.Keys && Distinct(found) && forall id :: id in found <==> id in tasks && id !in todo
    {
      var id :| id in todo;
      todo := todo - {id};
      DistinctSnoc(found, id);
      found := found + [id];
    }
    var ids := SortIds(found);
    list := seq(|ids|, i requires 0 <= i < |ids| => assert ids[i] in ids; tasks[ids[i]]);
    Listed(list, ids, tasks);
  }

  lemma Listed(list: seq<Task>, ids: seq<Id>, tasks: map<Id, Task>)
    requires Distinct(ids) && Alphabetical(ids) && (forall id :: id in ids <==> id in tasks)
    requires forall id <- tasks :: tasks[id].activity == id
    requires |list| == |ids| && forall i :: 0 <= i < |ids| ==> ids[i] in tasks && list[i] == tasks[ids[i]]
    ensures Lists(list, tasks)
  {
    hide Distinct, Alphabetical;
    assert Activities(list) == ids;
    forall task ensures task in list <==> task.activity in tasks && tasks[task.activity] == task {
      if task.activity in tasks && tasks[task.activity] == task {
        var i :| 0 <= i < |ids| && ids[i] == task.activity;
        assert list[i] == task;
      }
    }
  }

  // ---------- The whole execution ----------

  ghost predicate Completes(s: Setting, t: Tables, tasks: seq<Task>) {
    && t.running == map[]
    && t.completed.Keys == s.activities
    && Distinct(Activities(tasks)) && Alphabetical(Activities(tasks))
    && forall task :: task in tasks <==> task.activity in s.activities && task.status == TaskCompleted
  }

  /** `started` are the alphabetically first of the ready activities, as many as there are free places. */
  ghost predicate Chosen(s: Setting, t: Tables, started: seq<Id>) {
    && Distinct(started)
    && (forall id <- started :: IsReady(s, t, id))
    && |t.running| + |started| <= s.maxParallel
    && (|t.running| + |started| == s.maxParallel || forall id :: IsReady(s, t, id) ==> id in started)
    && forall id :: IsReady(s, t, id) && id !in started ==> AboveAll(started, id)
  }

  lemma ChooseSome(s: Setting, t: Tables, ready: seq<Id>, n: nat)
    requires Distinct(ready) && Alphabetical(ready) && (forall id :: id in ready <==> IsReady(s, t, id))
    requires |t.running| <= s.maxParallel
    requires n == if s.maxParallel - |t.running| > |ready| then |ready| else s.maxParallel - |t.running|
    ensures Chosen(s, t, ready[..n])
  {
    hide IsReady;
    assert n == |ready| ==> ready[..n] == ready;
    forall id | IsReady(s, t, id) && id !in ready[..n] ensures AboveAll(ready[..n], id) {
      var i :| 0 <= i < |ready| && ready[i] == id;
      assert AboveAll(ready[..i], ready[i]);
      assert forall x <- ready[..n] :: x in ready[..i];
    }
  }

  lemma StallIsHopeless(s: Setting, t: Tables, log: seq<Step>)
    requires Sound(s, t, log) && t.running == map[] && |t.completed| < |s.activities|
    requires forall id :: !IsReady(s, t, id)
    ensures Hopeless(s, t.completed.Keys)
  {
    hide Recorded, InOrder, Bounded, Active, Hopeless;
    assert t.completed.Keys <= s.activities;
    assert |t.completed.Keys| == |t.completed|;
    assert t.completed.Keys != s.activities;
    forall id <- s.activities - t.completed.Keys
      ensures exists p <- PredecessorsOf(s.dependencies, id) :: p !in t.completed.Keys
    {
      assert !IsReady(s, t, id);
    }
    NothingReadyIsHopeless(s, t.completed.Keys);
  }

  lemma AllCompleted(s: Setting, t: Tables, log: seq<Step>, tasks: seq<Task>)
    requires Sound(s, t, log) && |t.completed| >= |s.activities| && Lists(tasks, t.tasks)
    ensures Completes(s, t, tasks)
  {
    hide Recorded, InOrder, Bounded, Active, Distinct, Activities;
    assert t.completed.Keys <= s.activities;
    assert |t.completed.Keys| == |t.completed|;
    SubsetOfSameSize(t.completed.Keys, s.activities);
    assert t.running.Keys == {};
  }

  lemma OnTrackFromTheStart(s: Setting, events: seq<Event>, handles: map<Key, Handle>)
    ensures OnTrack(s, |events|, events, handles, Tables(map[], map[], map[]), []) && SettledSince(|events|, events)
  {
  }

  /** What the end of an execution says about its tables. */
  ghost predicate Concludes(s: Setting, interactive: bool, r: Result<Trace, Failure>, t: Tables) {
    match r
    case Err(CannotProgress) => t.running == map[] && Hopeless(s, t.completed.Keys)
    case Err(_) => true
    case Ok(Trace(tasks, true)) => Completes(s, t, tasks)
    case Ok(Trace(tasks, false)) => interactive && t.running != map[] && Lists(tasks, t.tasks)
  }

  /** A failure other than a stall or a cancelled context has its reason in one of the rounds. */
  ghost predicate Justified(s: Setting, rounds: seq<Round>, r: Result<Trace, Failure>) {
    r.Err? && r.error != CannotProgress && r.error != ContextDone ==>
      exists round <- rounds :: Blamed(s, round, r.error)
  }

  /** What a round does that does not end the execution: `mid` is the state between polling and starting. */
  ghost predicate Turn(s: Setting, round: Round, t0: Tables, mid: Tables, started: seq<Id>, t: Tables) {
    && Polled(t0, mid, round.news)
    && Chosen(s, mid, started)
    && Grown(mid, t, started)
    && (s.maxParallel > 0 ==> started != [] || t.running != map[] || |t.completed| >= |s.activities|)
    && (forall id <- t0.running :: Calm(round, id))
    && TasksSaved(round, started)
  }

  /** One turn of the main loop. */
  method ExecuteRound(s: Setting, interactive: bool, predecessors: map<Id, seq<Id>>, controller: Controller,
                      round: Round, t0: Tables, ghost log0: seq<Step>, ghost base: nat)
    returns (r: Option<Result<Trace, Failure>>, t: Tables, ghost log: seq<Step>, ghost mid: Tables,
             ghost started: seq<Id>)
    requires Indexes(predecessors, s.dependencies)
    requires controller.Valid() && OnTrack(s, base, controller.log, controller.handles, t0, log0)
    requires SettledSince(base, controller.log)
    modifies controller
    ensures controller.Valid() && old(controller.log) <= controller.log
    ensures OnTrack(s, base, controller.log, controller.handles, t, log) && log0 <= log
    ensures RoundEnds(s, interactive, round, t0, mid, started, r, t)
    ensures r.None? ==> SettledSince(base, controller.log)
  {
    hide Sound, OnTrack, SettledSince, Alphabetical, Lookup, IsReady, Completes, Hopeless, Distinct, Grown, Lists;
    hide Blamed, PolledBut, Chosen, Polled;
    var failure;
    failure, t, log := InspectRunning(s, t0, controller, round, log0, base);
    mid, started := t, [];
    if failure.Some? {
      BlameConcludes(s, interactive, round, failure.value, t);
      return Some(Err(failure.value)), t, log, mid, started;
    }
    OnTrackMeans(s, base, controller.log, controller.handles, t, log);
    SoundTables(s, t, log);
    if interactive && t.running != map[] {
      var list := ListTasks(t.tasks);
      return Some(Ok(Trace(list, false))), t, log, mid, started;
    }
    var ready := ReadyActivities(s, predecessors, t);
    failure, t, log, started := StartSome(s, ready, t, controller, round, log, base);
    if failure.Some? {
      BlameConcludes(s, interactive, round, failure.value, t);
      return Some(Err(failure.value)), t, log, mid, started;
    }
    if t.running == map[] && ready == [] && |t.completed| < |s.activities| {
      OnTrackMeans(s, base, controller.log, controller.handles, t, log);
      StallIsHopeless(s, t, log);
      return Some(Err(CannotProgress)), t, log, mid, started;
    }
    r := None;
  }

  /** Starts as many of the ready activities as there are free places. */
  method StartSome(s: Setting, ready: seq<Id>, t0: Tables, controller: Controller, round: Round,
                   ghost log0: seq<Step>, ghost base: nat)
    returns (failure: Option<Failure>, t: Tables, ghost log: seq<Step>, ghost started: seq<Id>)
    requires controller.Valid() && OnTrack(s, base, controller.log, controller.handles, t0, log0)
    requires SettledSince(base, controller.log)
    requires |t0.running| <= s.maxParallel && Distinct(ready) && Alphabetical(ready)
    requires forall id :: id in ready <==> IsReady(s, t0, id)
    modifies controller
    ensures controller.Valid() && old(controller.log) <= controller.log
    ensures OnTrack(s, base, controller.log, controller.handles, t, log) && log0 <= log
    ensures failure.Some? ==> Blamed(s, round, failure.value) && !failure.value.ActivityFailed?
    ensures Chosen(s, t0, started)
    ensures failure.None? ==> SettledSince(base, controller.log) && Grown(t0, t, started)
    ensures failure.None? ==> TasksSaved(round, started)
    ensures ready == [] ==> started == []
    ensures started == [] ==> t == t0 && (ready == [] || |t0.running| == s.maxParallel)
  {
    var available := s.maxParallel - |t0.running|;
    if available > |ready| {
      available := |ready|;
    }
    ChooseSome(s, t0, ready, available);
    assert (forall id <- ready[..available] :: IsReady(s, t0, id)) && Distinct(ready[..available]);
    hide *;
    started := ready[..available];
    failure, t, log := StartReady(s, ready[..available], t0, controller, round, log0, base);
  }

  // ---------- A cooperating world ----------

  /** Everything starts when asked, has completed when polled, and can be saved. */
  ghost predicate Cooperates(s: Setting, round: Round) {
    forall id <- s.activities ::
      && id in round.news && round.news[id].handle.status == Completed
      && id !in round.unreadable && id !in round.storeFails && id !in round.taskStoreFails
      && Accepts(s.run, round, id)
  }

  ghost predicate AllCooperate(s: Setting, rounds: seq<Round>) {
    forall round <- rounds :: Cooperates(s, round)
  }

  /** For every execution there are rounds in which everybody cooperates. */
  lemma CooperationIsPossible(s: Setting) returns (round: Round)
    ensures Cooperates(s, round)
  {
    round := Round(
      {},
      map id | id in s.activities :: Report(Key(s.run, id), Handle(s.run, id, Completed)),
      {}, {},
      map id | id in s.activities :: StartAnswers(true, true, true, Some(Handle(s.run, id, Running)), true));
  }

  lemma CooperationBlamesNothing(s: Setting, round: Round, failure: Failure)
    requires Cooperates(s, round)
    ensures !Blamed(s, round, failure)
  {
  }

  lemma AllPolledCompleted(s: Setting, round: Round, t0: Tables, mid: Tables)
    requires Cooperates(s, round) && Polled(t0, mid, round.news) && forall id <- t0.running :: id in s.activities
    ensures mid.running == map[] && forall x :: x in mid.tasks <==> x in t0.tasks
  {
    assert forall id :: id !in mid.running;
  }

  /** In a cooperating world every round attempts something new or finds everything completed. */
  lemma TurnMakesProgress(
    s: Setting, round: Round, t0: Tables, log0: seq<Step>, mid: Tables, started: seq<Id>, t: Tables)
    requires Cooperates(s, round) && s.maxParallel > 0 && Sound(s, t0, log0)
    requires Turn(s, round, t0, mid, started, t)
    ensures |t.tasks| > |t0.tasks| || |t.completed| >= |s.activities|
  {
    SoundRunning(s, t0, log0);
    AllPolledCompleted(s, round, t0, mid);
    hide Sound, Polled, Cooperates;
    if started != [] {
      assert started[0] in started && IsReady(s, mid, started[0]);
      MoreTasks(t0.tasks, t.tasks, started[0]);
    } else {
      assert t.running == map[] by {
        assert forall id :: id !in t.running;
      }
    }
  }

  /** Nothing fails, and of the running activities, if there are any, at least one is reported complete. */
  ghost predicate Helps(s: Setting, round: Round, t: Tables) {
    && (forall id <- s.activities ::
          && id !in round.unreadable && id !in round.storeFails && id !in round.taskStoreFails
          && Accepts(s.run, round, id))
    && (forall id <- t.running :: GoodNews(round.news, id))
    && (t.running != map[] ==> exists id <- t.running :: ReportedComplete(round.news, id))
  }

  /** Every round helped in the state in which it began. */
  ghost predicate Helped(s: Setting, rounds: seq<Round>, history: seq<Tables>) {
    |history| <= |rounds| && forall i :: 0 <= i < |history| ==> Helps(s, rounds[i], history[i])
  }

  lemma HelpBlamesNothing(s: Setting, round: Round, t: Tables, failure: Failure)
    requires Helps(s, round, t) && OfRunning(failure, t.running)
    ensures !Blamed(s, round, failure)
  {
  }

  /** A helpful round attempts something new, completes something or finds everything completed. */
  lemma HelpMakesProgress(
    s: Setting, round: Round, t0: Tables, log0: seq<Step>, mid: Tables, started: seq<Id>, t: Tables)
    requires Helps(s, round, t0) && s.maxParallel > 0 && Sound(s, t0, log0)
    requires Turn(s, round, t0, mid, started, t)
    ensures |t.tasks| + |t.completed| > |t0.tasks| + |t0.completed| || |t.completed| >= |s.activities|
  {
    TurnLosesNothing(s, round, t0, mid, started, t);
    if t0.running != map[] {
      var id :| id in t0.running && ReportedComplete(round.news, id);
      SoundRunning(s, t0, log0);
      hide *;
      MoreTasks(t0.completed, t.completed, id);
      NoFewer(t0.tasks, t.tasks);
    } else {
      IdleTurn(s, round, t0, mid, started, t);
      hide *;
      NoFewer(t0.completed, t.completed);
    }
  }

  /** When nothing was running, a round starts something or finds everything completed. */
  lemma IdleTurn(s: Setting, round: Round, t0: Tables, mid: Tables, started: seq<Id>, t: Tables)
    requires s.maxParallel > 0 && t0.running == map[] && Turn(s, round, t0, mid, started, t)
    ensures |t.tasks| > |t0.tasks| || |t.completed| >= |s.activities|
  {
    TurnLosesNothing(s, round, t0, mid, started, t);
    if started != [] {
      assert started[0] in started && IsReady(s, mid, started[0]);
      hide Polled;
      MoreTasks(t0.tasks, t.tasks, started[0]);
    } else {
      hide Polled, Chosen;
      assert t.running == map[] by {
        assert forall id :: id !in t.running;
      }
    }
  }

  lemma TurnLosesNothing(s: Setting, round: Round, t0: Tables, mid: Tables, started: seq<Id>, t: Tables)
    requires Turn(s, round, t0, mid, started, t)
    ensures forall x :: x in t0.tasks ==> x in t.tasks
    ensures forall x :: x in t0.completed ==> x in t.completed
    ensures forall x :: x in t0.running && ReportedComplete(round.news, x) ==> x in t.completed
    ensures forall x :: x in mid.tasks <==> x in t0.tasks
    ensures t0.running == map[] ==> forall x :: x !in mid.running
  {
  }

  lemma NoFewer(before: map<Id, Task>, after: map<Id, Task>)
    requires forall x :: x in before ==> x in after
    ensures |after| >= |before|
  {
    SubsetSize(before.Keys, after.Keys);
    assert |before.Keys| == |before| && |after.Keys| == |after|;
  }

  /** As long as rounds help, there is one step of progress for each. */
  ghost predicate Paced(s: Setting, rounds: seq<Round>, history: seq<Tables>, t: Tables) {
    Helped(s, rounds, history) && s.maxParallel > 0 ==>
      |history| <= |t.tasks| + |t.completed| || |t.completed| >= |s.activities|
  }

  lemma PaceOn(s: Setting, rounds: seq<Round>, history: seq<Tables>, t0: Tables, log0: seq<Step>, mid: Tables,
               started: seq<Id>, t: Tables)
    requires Paced(s, rounds, history, t0) && |history| < |rounds| && |t0.completed| < |s.activities|
    requires Sound(s, t0, log0) && Turn(s, rounds[|history|], t0, mid, started, t)
    ensures Paced(s, rounds, history + [t0], t)
  {
    hide Sound, Turn, Helps;
    var more := history + [t0];
    if Helped(s, rounds, more) && s.maxParallel > 0 {
      forall i | 0 <= i < |history| ensures Helps(s, rounds[i], history[i]) {
        assert more[i] == history[i];
      }
      assert more[|history|] == t0;
      HelpMakesProgress(s, rounds[|history|], t0, log0, mid, started, t);
    }
  }

  /** Helpful rounds do not run out before the execution ends. */
  lemma HelpSuffices(s: Setting, rounds: seq<Round>, history: seq<Tables>, t: Tables, log: seq<Step>)
    requires Paced(s, rounds, history, t) && Sound(s, t, log) && |t.completed| < |s.activities|
    requires |history| == |rounds| > 2 * |s.activities| && s.maxParallel > 0
    ensures !Helped(s, rounds, history)
  {
    TasksAreActivities(s, t, log);
    CompletedAreTasks(s, t, log);
  }

  lemma CompletedAreTasks(s: Setting, t: Tables, log: seq<Step>)
    requires Sound(s, t, log)
    ensures |t.completed| <= |t.tasks|
  {
    hide Recorded, InOrder, Bounded, Active;
    SubsetSize(t.completed.Keys, t.tasks.Keys);
    assert |t.completed.Keys| == |t.completed| && |t.tasks.Keys| == |t.tasks|;
  }

  lemma HelpsAt(s: Setting, rounds: seq<Round>, history: seq<Tables>, i: nat)
    requires Helped(s, rounds, history) && i < |history|
    ensures |history| <= |rounds| && Helps(s, rounds[i], history[i])
  {
  }

  /** Helpful rounds end an execution early only because it is hopeless. */
  lemma EndOfHelp(s: Setting, rounds: seq<Round>, history: seq<Tables>, r: Result<Trace, Failure>, t: Tables,
                  log: seq<Step>)
    requires Helped(s, rounds, history) && 0 < |history| <= |rounds| && Concludes(s, false, r, t) && Sound(s, t, log)
    requires r.Err? && r.error != CannotProgress ==>
               && Blamed(s, rounds[|history| - 1], r.error)
               && OfRunning(r.error, history[|history| - 1].running)
    ensures r.Ok? <==> !Hopeless(s, {})
  {
    hide Blamed, Helps, Helped, Hopeless, OfRunning;
    var n := |history| - 1;
    HelpsAt(s, rounds, history, n);
    match r
    case Ok(trace) =>
      assert trace.feasible;
      CompletionMeansWellFounded(s, t, log, {});
    case Err(CannotProgress) => HopelessFromTheStart(s, t.completed.Keys);
    case Err(failure) => HelpBlamesNothing(s, rounds[n], history[n], failure);
  }

  lemma MoreTasks(before: map<Id, Task>, after: map<Id, Task>, id: Id)
    requires (forall x :: x in before ==> x in after) && id in after && id !in before
    ensures |after| > |before|
  {
    assert after.Keys == before.Keys + {id} + (after.Keys - before.Keys - {id});
    assert |before.Keys + {id}| == |before.Keys| + 1;
    assert |after.Keys| == |before.Keys + {id}| + |after.Keys - before.Keys - {id}|;
  }

  lemma TasksAreActivities(s: Setting, t: Tables, log: seq<Step>)
    requires Sound(s, t, log)
    ensures |t.tasks| <= |s.activities|
  {
    hide Partition, Recorded, InOrder, Bounded, Active;
    assert s.activities == t.tasks.Keys + (s.activities - t.tasks.Keys);
    assert |s.activities| == |t.tasks.Keys| + |s.activities - t.tasks.Keys|;
  }

  /** What keeps some activities from completing keeps all of them from completing. */
  lemma HopelessFromTheStart(s: Setting, completed: set<Id>)
    requires Hopeless(s, completed)
    ensures Hopeless(s, {})
  {
    var rest := s.activities - completed;
    assert s.activities - {} == s.activities;
    if !DependsOutside(s, rest) {
      var c :| IsCycle(WaitsAmong(s.dependencies, rest), c);
      forall i | 0 < i < |c| ensures Hop(WaitsAmong(s.dependencies, s.activities), c, i) {
        assert Hop(WaitsAmong(s.dependencies, rest), c, i);
      }
      assert IsCycle(WaitsAmong(s.dependencies, s.activities), c);
    }
  }

  /**
   When the world cooperates in more rounds than there are activities, or helps in more than twice as
   many, the execution succeeds exactly when it is not hopeless.
   */
  ghost predicate Succeeds(
    s: Setting, interactive: bool, rounds: seq<Round>, history: seq<Tables>, r: Result<Trace, Failure>)
  {
    s.maxParallel > 0 && !interactive
    && (|| (AllCooperate(s, rounds) && |rounds| > |s.activities|)
        || (Helped(s, rounds, history) && |rounds| > 2 * |s.activities|)) ==>
      (r.Ok? <==> !Hopeless(s, {}))
  }

  /** As long as rounds cooperate, each attempts something new. */
  ghost predicate Brisk(s: Setting, rounds: seq<Round>, n: nat, t: Tables) {
    AllCooperate(s, rounds) && s.maxParallel > 0 ==> n <= |t.tasks| || |t.completed| >= |s.activities|
  }

  lemma BriskOn(s: Setting, rounds: seq<Round>, n: nat, t0: Tables, log0: seq<Step>, mid: Tables, started: seq<Id>,
                t: Tables)
    requires Brisk(s, rounds, n, t0) && n < |rounds| && |t0.completed| < |s.activities|
    requires Sound(s, t0, log0) && Turn(s, rounds[n], t0, mid, started, t)
    ensures Brisk(s, rounds, n + 1, t)
  {
    hide Sound, Turn, AllCooperate;
    if AllCooperate(s, rounds) && s.maxParallel > 0 {
      CooperatesAt(s, rounds, n);
      TurnMakesProgress(s, rounds[n], t0, log0, mid, started, t);
    }
  }

  lemma PacedFromTheStart(s: Setting, rounds: seq<Round>, t: Tables)
    ensures Paced(s, rounds, [], t) && Brisk(s, rounds, 0, t)
  {
  }

  /** When the rounds are over, the world neither cooperated nor helped long enough. */
  lemma RoundsAreOver(
    s: Setting, interactive: bool, rounds: seq<Round>, history: seq<Tables>, t: Tables, log: seq<Step>)
    requires Paced(s, rounds, history, t) && Brisk(s, rounds, |rounds|, t) && |history| == |rounds|
    requires Sound(s, t, log) && |t.completed| < |s.activities|
    ensures Concludes(s, interactive, Err(ContextDone), t) && Justified(s, rounds, Err(ContextDone))
    ensures Succeeds(s, interactive, rounds, history, Err(ContextDone))
  {
    TasksAreActivities(s, t, log);
    if |rounds| > 2 * |s.activities| && s.maxParallel > 0 {
      HelpSuffices(s, rounds, history, t, log);
    }
    hide Sound, Helped, AllCooperate;
  }

  /** What the round that ends an execution says about all of them. */
  lemma ConcludedRound(s: Setting, interactive: bool, rounds: seq<Round>, history: seq<Tables>, before: Tables,
                       r: Result<Trace, Failure>, t: Tables, log: seq<Step>)
    requires 0 < |history| <= |rounds| && history[|history| - 1] == before
    requires Concludes(s, interactive, r, t) && Sound(s, t, log)
    requires r.Err? && r.error != CannotProgress ==>
               Blamed(s, rounds[|history| - 1], r.error) && OfRunning(r.error, before.running)
    ensures Justified(s, rounds, r) && Succeeds(s, interactive, rounds, history, r)
  {
    hide Concludes, Blamed, OfRunning, Sound, AllCooperate, Helped, Hopeless, Justified;
    JustifiedBy(s, rounds, |history| - 1, r);
    if !interactive && AllCooperate(s, rounds) {
      EndOfLuck(s, rounds, |history| - 1, r, t, log);
    } else if !interactive && Helped(s, rounds, history) {
      EndOfHelp(s, rounds, history, r, t, log);
    }
  }

  /** How a turn leaves the execution: on its way, or at a justified end. */
  ghost predicate TurnEnds(
    s: Setting, interactive: bool, rounds: seq<Round>, history: seq<Tables>, r: Option<Result<Trace, Failure>>,
    t: Tables)
  {
    match r
    case None => Paced(s, rounds, history, t) && Brisk(s, rounds, |history|, t)
    case Some(result) =>
      && Concludes(s, interactive, result, t)
      && Justified(s, rounds, result)
      && Succeeds(s, interactive, rounds, history, result)
  }

  /** What `ExecuteRound` promises of its outcome. */
  ghost predicate RoundEnds(
    s: Setting, interactive: bool, round: Round, t0: Tables, mid: Tables, started: seq<Id>,
    r: Option<Result<Trace, Failure>>, t: Tables)
  {
    match r
    case None => Turn(s, round, t0, mid, started, t)
    case Some(result) =>
      && Concludes(s, interactive, result, t)
      && (result.Err? && result.error != CannotProgress ==>
            Blamed(s, round, result.error) && OfRunning(result.error, t0.running))
      && (result.Ok? ==> forall id <- t0.running :: Calm(round, id))
  }

  lemma TurnEnded(s: Setting, interactive: bool, rounds: seq<Round>, history: seq<Tables>, t0: Tables, log0: seq<Step>,
                  mid: Tables, started: seq<Id>, r: Option<Result<Trace, Failure>>, t: Tables, log: seq<Step>)
    requires |history| < |rounds| && |t0.completed| < |s.activities| && Sound(s, t0, log0) && Sound(s, t, log)
    requires Paced(s, rounds, history, t0) && Brisk(s, rounds, |history|, t0)
    requires RoundEnds(s, interactive, rounds[|history|], t0, mid, started, r, t)
    ensures TurnEnds(s, interactive, rounds, history + [t0], r, t)
  {
    hide Sound, Paced, Brisk, Concludes, Blamed, OfRunning, Turn, Justified, Succeeds;
    match r
    case None => Onward(s, rounds, history, t0, log0, mid, started, t);
    case Some(result) => ConcludedRound(s, interactive, rounds, history + [t0], t0, result, t, log);
  }

  /** One turn of the main loop and what it says about the whole execution. */
  method ExecuteTurn(s: Setting, interactive: bool, predecessors: map<Id, seq<Id>>, controller: Controller,
                     rounds: seq<Round>, round: nat, t0: Tables, ghost log0: seq<Step>, ghost base: nat,
                     ghost history: seq<Tables>)
    returns (r: Option<Result<Trace, Failure>>, t: Tables, ghost log: seq<Step>)
    requires Indexes(predecessors, s.dependencies)
    requires controller.Valid() && OnTrack(s, base, controller.log, controller.handles, t0, log0)
    requires SettledSince(base, controller.log) && |t0.completed| < |s.activities|
    requires round == |history| < |rounds| && Paced(s, rounds, history, t0) && Brisk(s, rounds, round, t0)
    modifies controller
    ensures controller.Valid() && old(controller.log) <= controller.log
    ensures OnTrack(s, base, controller.log, controller.handles, t, log)
    ensures r.None? ==> SettledSince(base, controller.log)
    ensures TurnEnds(s, interactive, rounds, history + [t0], r, t)
    ensures r.None? || r.value.Ok? ==> forall id <- t0.running :: Calm(rounds[round], id)
  {
    hide *;
    OnTrackMeans(s, base, controller.log, controller.handles, t0, log0);
    ghost var mid, started;
    r, t, log, mid, started := ExecuteRound(s, interactive, predecessors, controller, rounds[round], t0, log0, base);
    OnTrackMeans(s, base, controller.log, controller.handles, t, log);
    TurnEnded(s, interactive, rounds, history, t0, log0, mid, started, r, t, log);
    CalmTurn(s, interactive, rounds[round], t0, mid, started, r, t);
  }

  lemma CalmTurn(s: Setting, interactive: bool, round: Round, t0: Tables, mid: Tables, started: seq<Id>,
                 r: Option<Result<Trace, Failure>>, t: Tables)
    requires RoundEnds(s, interactive, round, t0, mid, started, r, t)
    ensures r.None? || r.value.Ok? ==> forall id <- t0.running :: Calm(round, id)
  {
  }

  /** In none of the rounds anything went wrong with an activity that was running. */
  ghost predicate AllCalm(rounds: seq<Round>, history: seq<Tables>) {
    |history| <= |rounds| && forall i, id :: 0 <= i < |history| && id in history[i].running ==> Calm(rounds[i], id)
  }

  lemma AllCalmSnoc(rounds: seq<Round>, history: seq<Tables>, t: Tables)
    requires AllCalm(rounds, history) && |history| < |rounds|
    requires forall id <- t.running :: Calm(rounds[|history|], id)
    ensures AllCalm(rounds, history + [t])
  {
    hide Calm;
  }

  lemma TurnEndsMeans(s: Setting, interactive: bool, rounds: seq<Round>, history: seq<Tables>,
                      r: Option<Result<Trace, Failure>>, t: Tables)
    requires TurnEnds(s, interactive, rounds, history, r, t)
    ensures r.None? ==> Paced(s, rounds, history, t) && Brisk(s, rounds, |history|, t)
    ensures r.Some? ==> Concludes(s, interactive, r.value, t) && Justified(s, rounds, r.value)
    ensures r.Some? ==> Succeeds(s, interactive, rounds, history, r.value)
  {
  }

  lemma Onward(s: Setting, rounds: seq<Round>, history: seq<Tables>, t0: Tables, log0: seq<Step>, mid: Tables,
               started: seq<Id>, t: Tables)
    requires |history| < |rounds| && |t0.completed| < |s.activities| && Sound(s, t0, log0)
    requires Paced(s, rounds, history, t0) && Brisk(s, rounds, |history|, t0)
    requires Turn(s, rounds[|history|], t0, mid, started, t)
    ensures Paced(s, rounds, history + [t0], t) && Brisk(s, rounds, |history| + 1, t)
  {
    hide *;
    PaceOn(s, rounds, history, t0, log0, mid, started, t);
    BriskOn(s, rounds, |history|, t0, log0, mid, started, t);
  }

  /**
   One delivery of an execution, against whatever the outside world answers in each round.
   When there are no more rounds the context is cancelled.  `history` are the tables with which the
   rounds began.
   */
  method ExecuteActivities(s: Setting, interactive: bool, controller: Controller, rounds: seq<Round>)
    returns (r: Result<Trace, Failure>, t: Tables, ghost log: seq<Step>, ghost history: seq<Tables>)
    requires controller.Valid()
    modifies controller
    ensures controller.Valid() && old(controller.log) <= controller.log
    ensures Sound(s, t, log) && Handled(s.run, t.running, controller.handles)
    ensures Tracked(s, controller.log[|old(controller.log)|..], log)
    ensures Concludes(s, interactive, r, t) && Justified(s, rounds, r)
    ensures |history| <= |rounds| && Succeeds(s, interactive, rounds, history, r)
    ensures r.Ok? ==> AllCalm(rounds, history)
  {
    var predecessors := IndexPredecessors(s.dependencies);
    t, log, history := Tables(map[], map[], map[]), [], [];
    ghost var base := |controller.log|;
    OnTrackFromTheStart(s, controller.log, controller.handles);
    PacedFromTheStart(s, rounds, t);
    assert Indexes(predecessors, s.dependencies) && AllCalm(rounds, history);
    hide *;
    var round := 0;
    while |t.completed| < |s.activities|
      invariant controller.Valid() && old(controller.log) <= controller.log
      invariant OnTrack(s, base, controller.log, controller.handles, t, log) && SettledSince(base, controller.log)
      invariant round == |history| <= |rounds|
      invariant Paced(s, rounds, history, t) && Brisk(s, rounds, round, t)
      invariant AllCalm(rounds, history)
      decreases |rounds| - round
    {
      if round == |rounds| {
        OnTrackMeans(s, base, controller.log, controller.handles, t, log);
        RoundsAreOver(s, interactive, rounds, history, t, log);
        return Err(ContextDone), t, log, history;
      }
      ghost var more := history + [t];
      var done;
      ghost var before := t;
      done, t, log := ExecuteTurn(s, interactive, predecessors, controller, rounds, round, t, log, base, history);
      if done.None? || done.value.Ok? {
        AllCalmSnoc(rounds, history, before);
      }
      history, round := more, round + 1;
      TurnEndsMeans(s, interactive, rounds, history, done, t);
      if done.Some? {
        OnTrackMeans(s, base, controller.log, controller.handles, t, log);
        return done.value, t, log, history;
      }
    }
    OnTrackMeans(s, base, controller.log, controller.handles, t, log);
    SoundTables(s, t, log);
    var list := ListTasks(t.tasks);
    AllCompleted(s, t, log, list);
    r := Ok(Trace(list, true));
    SuccessIsWellFounded(s, interactive, list, t, log, rounds, history);
  }

  lemma CooperatesAt(s: Setting, rounds: seq<Round>, i: nat)
    requires AllCooperate(s, rounds) && i < |rounds|
    ensures Cooperates(s, rounds[i])
  {
  }

  lemma BlameConcludes(s: Setting, interactive: bool, round: Round, failure: Failure, t: Tables)
    requires Blamed(s, round, failure)
    ensures Concludes(s, interactive, Err(failure), t)
  {
  }

  lemma JustifiedBy(s: Setting, rounds: seq<Round>, i: nat, r: Result<Trace, Failure>)
    requires i < |rounds| && (r.Err? && r.error != CannotProgress ==> Blamed(s, rounds[i], r.error))
    ensures Justified(s, rounds, r)
  {
    assert rounds[i] in rounds;
  }

  /** A cooperating world ends an execution early only because it is hopeless. */
  lemma EndOfLuck(s: Setting, rounds: seq<Round>, i: nat, r: Result<Trace, Failure>, t: Tables, log: seq<Step>)
    requires AllCooperate(s, rounds) && i < |rounds| && Concludes(s, false, r, t) && Sound(s, t, log)
    requires r.Err? && r.error != CannotProgress ==> Blamed(s, rounds[i], r.error)
    ensures r.Ok? <==> !Hopeless(s, {})
  {
    hide Blamed, Cooperates, Hopeless;
    CooperatesAt(s, rounds, i);
    match r
    case Ok(trace) =>
      assert trace.feasible;
      CompletionMeansWellFounded(s, t, log, {});
    case Err(CannotProgress) => HopelessFromTheStart(s, t.completed.Keys);
    case Err(failure) => CooperationBlamesNothing(s, rounds[i], failure);
  }

  lemma SuccessIsWellFounded(
    s: Setting, interactive: bool, tasks: seq<Task>, t: Tables, log: seq<Step>, rounds: seq<Round>,
    history: seq<Tables>)
    requires Completes(s, t, tasks) && Sound(s, t, log)
    ensures Concludes(s, interactive, Ok(Trace(tasks, true)), t) && !Hopeless(s, {})
    ensures Justified(s, rounds, Ok(Trace(tasks, true)))
    ensures Succeeds(s, interactive, rounds, history, Ok(Trace(tasks, true)))
  {
    CompletionMeansWellFounded(s, t, log, {});
  }
}
