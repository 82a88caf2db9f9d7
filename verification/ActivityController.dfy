/**
 The activity controller.  Starting an activity is idempotent: a saved handle is returned
 instead of starting the runtime again, also when the whole execution is delivered again.
 */
module ActivityController {
  import opened Graphs
  import opened Outcomes

  datatype HandleStatus = Starting | Running | Completed | Failed | Stopped

  datatype Key = Key(run: Id, activity: Id)

  datatype Handle = Handle(run: Id, activity: Id, status: HandleStatus)

  /** What a runtime answers when asked: a handle and the key it is filed under. */
  datatype Report = Report(key: Key, handle: Handle)

  datatype Event = RuntimeStarted(key: Key) | HandleSaved(key: Key) | StopAsked(key: Key)

  /** What the outside world answers while an activity is started. */
  datatype StartAnswers = StartAnswers(
    accepted: bool,          // the activity is valid, its gate is ready and the mode is supported
    storeReadable: bool,
    runtimeKnown: bool,
    started: Option<Handle>, // what the runtime returns, if it starts at all
    saved: bool
  )

  /** The runtime starts the activity, returns its own handle, and the handle is saved. */
  predicate Starts(key: Key, answers: StartAnswers) {
    && answers.runtimeKnown && answers.started.Some? && answers.saved
    && answers.started.value.run == key.run && answers.started.value.activity == key.activity
  }

  datatype Refusal = Rejected | StoreUnreadable | NoRuntime | RuntimeFailed | WrongHandle | NotSaved

  /** What a start that fails does to the runtime; one whose handle cannot be saved is stopped again. */
  function LeavesBehind(key: Key, refusal: Refusal): seq<Event> {
    match refusal
    case RuntimeFailed => [RuntimeStarted(key)]
    case WrongHandle => [RuntimeStarted(key)]
    case NotSaved => [RuntimeStarted(key), StopAsked(key)]
    case _ => []
  }

  /** No runtime is started for a key after a handle for it was saved. */
  ghost predicate NoRestart(log: seq<Event>) {
    forall j :: 0 <= j < |log| && log[j].RuntimeStarted? ==> HandleSaved(log[j].key) !in log[..j]
  }

  lemma NoRestartSnoc(log: seq<Event>, e: Event)
    requires NoRestart(log) && (e.RuntimeStarted? ==> HandleSaved(e.key) !in log)
    ensures NoRestart(log + [e])
  {
  }

  class Controller {
    var handles: map<Key, Handle>
    ghost var log: seq<Event>

    /** The store remembers every save, and the history never restarts a saved activity. */
    ghost predicate Valid()
      reads this
    {
      && NoRestart(log)
      && (forall k :: k in handles <==> HandleSaved(k) in log)
    }

    constructor ()
      ensures Valid() && log == [] && handles == map[]
    {
      handles, log := map[], [];
    }

    method Save(key: Key, handle: Handle)
      requires Valid()
      modifies this
      ensures Valid() && handles == old(handles)[key := handle] && log == old(log) + [HandleSaved(key)]
    {
      NoRestartSnoc(log, HandleSaved(key));
      handles, log := handles[key := handle], log + [HandleSaved(key)];
    }

    /** Starts an activity, or returns the handle of an earlier start. */
    method Start(key: Key, answers: StartAnswers) returns (r: Result<Handle, Refusal>)
      requires Valid()
      modifies this
      ensures Valid() && old(log) <= log && old(handles.Keys) <= handles.Keys
      ensures r.Ok? ==> key in handles && r.value == handles[key]
      ensures key in old(handles) ==> log == old(log) && handles == old(handles)
      ensures r.Ok? && key !in old(handles) ==> log == old(log) + [RuntimeStarted(key), HandleSaved(key)]
      ensures r.Err? ==> handles == old(handles) && log == old(log) + LeavesBehind(key, r.error)
      ensures !answers.accepted ==> r == Err(Rejected) && log == old(log)
      ensures r.Ok? <==> answers.accepted && answers.storeReadable && (key in old(handles) || Starts(key, answers))
    {
      if !answers.accepted {
        return Err(Rejected);
      }
      if !answers.storeReadable {
        return Err(StoreUnreadable);
      }
      if key in handles {
        return Ok(handles[key]);
      }
      if !answers.runtimeKnown {
        return Err(NoRuntime);
      }
      NoRestartSnoc(log, RuntimeStarted(key));
      log := log + [RuntimeStarted(key)];
      if answers.started.None? {
        return Err(RuntimeFailed);
      }
      var handle := answers.started.value;
      if handle.activity != key.activity || handle.run != key.run {
        return Err(WrongHandle);
      }
      if !answers.saved {
        NoRestartSnoc(log, StopAsked(key));
        log := log + [StopAsked(key)];
        assert log == old(log) + LeavesBehind(key, NotSaved);
        return Err(NotSaved);
      }
      Save(key, handle);
      assert log == old(log) + [RuntimeStarted(key), HandleSaved(key)];
      r := Ok(handle);
    }

    /**
     Asks the runtime for news and stores them under the key they carry; a runtime that cannot be
     found or asked counts as failed.
     */
    method Inspect(key: Key, readable: bool, news: Option<Report>, saved: bool) returns (r: Option<Handle>)
      requires Valid()
      modifies this
      ensures Valid() && old(handles.Keys) <= handles.Keys
      ensures r.Some? <==> readable && key in old(handles) && saved
      ensures r.Some? ==> var filed := if news.Some? then news.value.key else key;
                          && r.value == (if news.Some? then news.value.handle else old(handles)[key].(status := Failed))
                          && handles == old(handles)[filed := r.value]
                          && log == old(log) + [HandleSaved(filed)]
      ensures r.None? ==> handles == old(handles) && log == old(log)
    {
      if !readable || key !in handles {
        return None;
      }
      var filed := if news.Some? then news.value.key else key;
      var updated := if news.Some? then news.value.handle else handles[key].(status := Failed);
      if !saved {
        return None;
      }
      Save(filed, updated);
      r := Some(updated);
    }

    /** Stops an activity and then records it; the runtime may have stopped although that fails. */
    method Stop(key: Key, readable: bool, stops: bool, saved: bool) returns (ok: bool, halted: bool)
      requires Valid()
      modifies this
      ensures Valid() && old(log) <= log && handles.Keys == old(handles.Keys)
      ensures halted <==> readable && key in old(handles) && stops
      ensures ok <==> halted && saved
      ensures handles == if ok then old(handles)[key := old(handles)[key].(status := Stopped)] else old(handles)
    {
      if !readable || key !in handles || !stops {
        return false, false;
      }
      if !saved {
        return false, true;
      }
      Save(key, handles[key].(status := Stopped));
      ok, halted := true, true;
    }
  }
}
