/**
 What one delivery of an execution does to the runtimes: the controller's events since the
 delivery began, compared with the supervisor's history.
 */
module RuntimeStarts {
  import opened Graphs
  import opened Dependencies
  import opened ActivityController
  import opened SupervisorTables

  /** Every running activity has a handle to poll. */
  ghost predicate Handled(run: Id, running: map<Id, Handle>, handles: map<Key, Handle>) {
    forall id <- running :: Key(run, id) in handles
  }

  /** The activity belongs to the run and all its predecessors have finished. */
  ghost predicate Due(s: Setting, key: Key, log: seq<Step>) {
    && key.run == s.run && key.activity in s.activities
    && forall p <- PredecessorsOf(s.dependencies, key.activity) :: Finished(p) in log
  }

  /** No runtime is started twice for one activity, and none before the predecessors have finished. */
  ghost predicate Tracked(s: Setting, recent: seq<Event>, log: seq<Step>) {
    forall j :: 0 <= j < |recent| && recent[j].RuntimeStarted? ==>
      recent[j] !in recent[..j] && Due(s, recent[j].key, log)
  }

  /** Every start was saved. */
  ghost predicate Settled(recent: seq<Event>) {
    forall e <- recent :: e.RuntimeStarted? ==> HandleSaved(e.key) in recent
  }

  lemma TrackSnoc(s: Setting, recent: seq<Event>, log: seq<Step>, e: Event)
    requires Tracked(s, recent, log) && (e.RuntimeStarted? ==> e !in recent && Due(s, e.key, log))
    ensures Tracked(s, recent + [e], log)
  {
    hide Due;
    var more := recent + [e];
    forall j | 0 <= j < |more| && more[j].RuntimeStarted? ensures more[j] !in more[..j] && Due(s, more[j].key, log) {
      assert more[..j] == recent[..j];
      assert j == |recent| ==> recent[..j] == recent;
    }
  }

  lemma TrackLonger(s: Setting, recent: seq<Event>, log: seq<Step>, more: seq<Step>)
    requires Tracked(s, recent, log) && log <= more
    ensures Tracked(s, recent, more)
  {
    forall j | 0 <= j < |recent| && recent[j].RuntimeStarted? ensures Due(s, recent[j].key, more) {
      assert Due(s, recent[j].key, log);
    }
  }

  /** Everything that holds of an execution between two calls; `base` is where the delivery began. */
  ghost predicate OnTrack(
    s: Setting, base: nat, events: seq<Event>, handles: map<Key, Handle>, t: Tables, log: seq<Step>)
  {
    && base <= |events|
    && Sound(s, t, log)
    && Handled(s.run, t.running, handles)
    && Tracked(s, events[base..], log)
  }

  ghost predicate SettledSince(base: nat, events: seq<Event>) {
    base <= |events| && Settled(events[base..])
  }

  lemma Since(base: nat, events: seq<Event>, more: seq<Event>)
    requires base <= |events|
    ensures (events + more)[base..] == events[base..] + more
  {
  }

  /** Saving a handle or asking a runtime to stop is always possible. */
  lemma OnTrackSaved(s: Setting, base: nat, events: seq<Event>, handles: map<Key, Handle>, t: Tables, log: seq<Step>,
                     e: Event, more: map<Key, Handle>)
    requires OnTrack(s, base, events, handles, t, log) && handles.Keys <= more.Keys && !e.RuntimeStarted?
    ensures OnTrack(s, base, events + [e], more, t, log)
    ensures SettledSince(base, events) ==> SettledSince(base, events + [e])
  {
    Since(base, events, [e]);
    TrackSnoc(s, events[base..], log, e);
    hide Sound, Tracked;
  }

  /** An activity that is due and has no handle may be started. */
  lemma OnTrackStarted(s: Setting, base: nat, events: seq<Event>, handles: map<Key, Handle>, t: Tables, log: seq<Step>,
                       key: Key)
    requires OnTrack(s, base, events, handles, t, log) && SettledSince(base, events)
    requires Due(s, key, log) && HandleSaved(key) !in events
    ensures OnTrack(s, base, events + [RuntimeStarted(key)], handles, t, log)
    ensures SettledSince(base, events + [RuntimeStarted(key)] + [HandleSaved(key)])
  {
    var recent := events[base..];
    assert RuntimeStarted(key) !in recent by {
      assert HandleSaved(key) !in recent;
    }
    Since(base, events, [RuntimeStarted(key)]);
    Since(base, events + [RuntimeStarted(key)], [HandleSaved(key)]);
    TrackSnoc(s, recent, log, RuntimeStarted(key));
    hide Sound, Tracked, Due;
  }

  /** Going on to other tables and a longer history. */
  lemma OnTrackOnward(s: Setting, base: nat, events: seq<Event>, handles: map<Key, Handle>, t: Tables, log: seq<Step>,
                      t': Tables, log': seq<Step>)
    requires OnTrack(s, base, events, handles, t, log) && Sound(s, t', log') && log <= log'
    requires Handled(s.run, t'.running, handles)
    ensures OnTrack(s, base, events, handles, t', log')
  {
    TrackLonger(s, events[base..], log, log');
  }

  lemma OnTrackMeans(s: Setting, base: nat, events: seq<Event>, handles: map<Key, Handle>, t: Tables, log: seq<Step>)
    requires OnTrack(s, base, events, handles, t, log)
    ensures base <= |events| && Sound(s, t, log) && Handled(s.run, t.running, handles)
    ensures Tracked(s, events[base..], log)
  {
  }
}
