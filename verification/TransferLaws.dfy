/** What survives any sequence of interrupted and resumed transfers. */
module TransferLaws {
  import opened Graphs
  import opened Transfer

  datatype Call = Call(plan: Plan, faults: seq<Fault>)

  /** The store after a run of calls, each possibly cut short. */
  function AfterCalls(hash: Bytes -> Id, source: map<Id, Bytes>, store: Store, calls: seq<Call>): Store {
    if calls == [] then store else
      var n := |calls| - 1;
      MaterializeSpec(hash, source, calls[n].plan, AfterCalls(hash, source, store, calls[..n]), calls[n].faults).store
  }

  /** The source keeps serving the same bytes for every blob of the plan. */
  ghost predicate Stable(source: map<Id, Bytes>, content: map<Id, Bytes>, plan: Plan) {
    forall b <- plan.blobs ::
      && b.digest in content
      && NameOf(plan, b.digest) in source
      && source[NameOf(plan, b.digest)] == content[b.digest]
  }

  /** Partial objects are absent or prefixes of what they are copies of. */
  ghost predicate Resumable(content: map<Id, Bytes>, store: Store) {
    forall d <- content :: ContentOf(store, Partial(d)) <= content[d]
  }

  /** Final objects are as they were at the start, or verified copies of their source. */
  ghost predicate FinalsSound(hash: Bytes -> Id, content: map<Id, Bytes>, start: Store, store: Store) {
    forall d: Id :: Final(d) in store ==>
      || (Final(d) in start && store[Final(d)] == start[Final(d)])
      || (d in content && store[Final(d)] == content[d] && Verifies(hash, content[d], d))
  }

  lemma PrefixPlusRest(partial: Bytes, bytes: Bytes, n: nat)
    requires partial <= bytes
    ensures partial + From(bytes, |partial|) == bytes
    ensures partial + Cut(From(bytes, |partial|), n) <= bytes
  {
  }

  lemma CopyKeepsSound(
    hash: Bytes -> Id, source: map<Id, Bytes>, content: map<Id, Bytes>, start: Store, store: Store,
    name: Id, d: Id, fault: Fault)
    requires d in content && name in source && source[name] == content[d]
    requires Resumable(content, store) && FinalsSound(hash, content, start, store)
    ensures var c := CopyBlob(hash, source, name, store, d, fault);
            Resumable(content, c.store) && FinalsSound(hash, content, start, c.store)
  {
    PrefixPlusRest(ContentOf(store, Partial(d)), content[d], if fault.stop.DuringPut? then fault.stop.written else 0);
    hide Verifies, From, Cut;
  }

  lemma {:induction false} CallKeepsSound(
    hash: Bytes -> Id, source: map<Id, Bytes>, content: map<Id, Bytes>, start: Store, store: Store,
    plan: Plan, faults: seq<Fault>, n: nat)
    requires Stable(source, content, plan) && n <= |plan.blobs|
    requires Resumable(content, store) && FinalsSound(hash, content, start, store)
    ensures var p := CopyBlobs(hash, source, plan, store, faults, n);
            Resumable(content, p.store) && FinalsSound(hash, content, start, p.store)
  {
    if n > 0 {
      hide Resumable, FinalsSound, CopyBlob;
      CallKeepsSound(hash, source, content, start, store, plan, faults, n - 1);
      var p, blob := CopyBlobs(hash, source, plan, store, faults, n - 1), plan.blobs[n - 1];
      assert blob in plan.blobs;
      CopyKeepsSound(hash, source, content, start, p.store, NameOf(plan, blob.digest), blob.digest,
                     Met(blob, FaultAt(faults, n - 1)));
    }
  }

  /**
   Safety over whole runs: whatever is interrupted, partial objects stay prefixes of their source
   and no final object with wrong content is ever created.
   */
  lemma {:induction false} RunsKeepSound(
    hash: Bytes -> Id, source: map<Id, Bytes>, content: map<Id, Bytes>, start: Store, calls: seq<Call>)
    requires Resumable(content, start) && forall c <- calls :: Stable(source, content, c.plan)
    ensures Resumable(content, AfterCalls(hash, source, start, calls))
    ensures FinalsSound(hash, content, start, AfterCalls(hash, source, start, calls))
  {
    if calls != [] {
      var n := |calls| - 1;
      assert calls[n] in calls;
      RunsKeepSound(hash, source, content, start, calls[..n]);
      CallKeepsSound(hash, source, content, start, AfterCalls(hash, source, start, calls[..n]),
                     calls[n].plan, calls[n].faults, |calls[n].plan.blobs|);
    }
  }

  // ---------- What a completed call leaves behind ----------

  ghost predicate Holds(hash: Bytes -> Id, store: Store, d: Id) {
    Final(d) in store && Verifies(hash, store[Final(d)], d)
  }

  lemma CopyHolds(
    hash: Bytes -> Id, source: map<Id, Bytes>, name: Id, store: Store, d: Id, fault: Fault, other: Id)
    ensures var c := CopyBlob(hash, source, name, store, d, fault);
            (c.ok ==> Holds(hash, c.store, d)) && (Holds(hash, store, other) ==> Holds(hash, c.store, other))
  {
  }

  /** A digest reported as verified has a verified final object. */
  lemma {:induction false} VerifiedIsHeld(
    hash: Bytes -> Id, source: map<Id, Bytes>, plan: Plan, store: Store, faults: seq<Fault>, n: nat, d: Id)
    requires n <= |plan.blobs| && d in CopyBlobs(hash, source, plan, store, faults, n).verified
    ensures Holds(hash, CopyBlobs(hash, source, plan, store, faults, n).store, d)
  {
    if n > 0 {
      hide CopyBlob, Holds, Reported, NameOf;
      var p, blob := CopyBlobs(hash, source, plan, store, faults, n - 1), plan.blobs[n - 1];
      if d in p.verified {
        VerifiedIsHeld(hash, source, plan, store, faults, n - 1, d);
      }
      CopyHolds(hash, source, NameOf(plan, blob.digest), p.store, blob.digest, Met(blob, FaultAt(faults, n - 1)), d);
    }
  }

  /** While a call goes on, every blob handled so far is reported as verified. */
  lemma {:induction false} HandledAreVerified(
    hash: Bytes -> Id, source: map<Id, Bytes>, plan: Plan, store: Store, faults: seq<Fault>, n: nat, i: nat)
    requires i < n <= |plan.blobs| && CopyBlobs(hash, source, plan, store, faults, n).ok
    ensures plan.blobs[i].digest in CopyBlobs(hash, source, plan, store, faults, n).verified
  {
    hide CopyBlob, Reported, NameOf;
    if i < n - 1 {
      HandledAreVerified(hash, source, plan, store, faults, n - 1, i);
    }
  }

  /** A call that reports success leaves a verified final object for every blob of its plan. */
  lemma CompletedCallHoldsAll(
    hash: Bytes -> Id, source: map<Id, Bytes>, plan: Plan, store: Store, faults: seq<Fault>)
    ensures var p := MaterializeSpec(hash, source, plan, store, faults);
            && (forall d <- p.verified :: Holds(hash, p.store, d))
            && (p.ok ==> forall b <- plan.blobs :: b.digest in p.verified)
  {
    hide CopyBlobs, Holds;
    var p := MaterializeSpec(hash, source, plan, store, faults);
    forall d <- p.verified ensures Holds(hash, p.store, d) {
      VerifiedIsHeld(hash, source, plan, store, faults, |plan.blobs|, d);
    }
    if p.ok {
      forall b <- plan.blobs ensures b.digest in p.verified {
        var i :| 0 <= i < |plan.blobs| && plan.blobs[i] == b;
        HandledAreVerified(hash, source, plan, store, faults, |plan.blobs|, i);
      }
    }
  }

  /** The destination holds exact copies of all blobs of the plan. */
  ghost predicate Exact(content: map<Id, Bytes>, store: Store, plan: Plan) {
    forall b <- plan.blobs ::
      b.digest in content && Final(b.digest) in store && store[Final(b.digest)] == content[b.digest]
  }

  /**
   A run whose last call completes ends with exact copies of the source, also where the destination
   started with damaged final objects; only other bytes of the same digest could stand in their place.
   */
  lemma CompletedRunIsExact(
    hash: Bytes -> Id, source: map<Id, Bytes>, content: map<Id, Bytes>, start: Store, calls: seq<Call>, last: Call)
    requires Resumable(content, start) && (forall c <- calls :: Stable(source, content, c.plan))
    requires Stable(source, content, last.plan)
    requires forall d <- content :: Holds(hash, start, d) ==> start[Final(d)] == content[d]
    requires MaterializeSpec(hash, source, last.plan, AfterCalls(hash, source, start, calls), last.faults).ok
    ensures Exact(content, AfterCalls(hash, source, start, calls + [last]), last.plan)
  {
    hide MaterializeSpec, Resumable, Verifies, Stable, NameOf;
    var all := calls + [last];
    assert all[..|calls|] == calls;
    RunsKeepSound(hash, source, content, start, all);
    CompletedCallHoldsAll(hash, source, last.plan, AfterCalls(hash, source, start, calls), last.faults);
    KnownDigests(source, content, last.plan);
  }

  lemma KnownDigests(source: map<Id, Bytes>, content: map<Id, Bytes>, plan: Plan)
    requires Stable(source, content, plan)
    ensures forall b <- plan.blobs :: b.digest in content
  {
  }

  // ---------- Resuming always works from a prefix ----------

  lemma UndisturbedCopySucceeds(hash: Bytes -> Id, source: map<Id, Bytes>, name: Id, store: Store, d: Id)
    requires name in source && ContentOf(store, Partial(d)) <= source[name] && Verifies(hash, source[name], d)
    ensures CopyBlob(hash, source, name, store, d, NO_FAULT).ok
  {
    PrefixPlusRest(ContentOf(store, Partial(d)), source[name], 0);
    hide Verifies, From;
  }

  /** Without faults, a call from a resumable store succeeds whenever the source has the right digests. */
  lemma {:induction false} FaultFreeCallSucceeds(
    hash: Bytes -> Id, source: map<Id, Bytes>, content: map<Id, Bytes>, plan: Plan, store: Store, n: nat)
    requires Stable(source, content, plan) && Resumable(content, store) && n <= |plan.blobs|
    requires forall d <- content :: Verifies(hash, content[d], d)
    ensures CopyBlobs(hash, source, plan, store, [], n).ok
  {
    if n > 0 {
      hide *;
      FaultFreeCallSucceeds(hash, source, content, plan, store, n - 1);
      NothingNewYet(hash, content, store);
      CallKeepsSound(hash, source, content, store, store, plan, [], n - 1);
      StableAt(source, content, plan, n - 1);
      ResumableAt(content, CopyBlobs(hash, source, plan, store, [], n - 1).store, plan.blobs[n - 1].digest);
      NextBlobSucceeds(hash, source, plan, store, n);
    }
  }

  lemma StableAt(source: map<Id, Bytes>, content: map<Id, Bytes>, plan: Plan, i: nat)
    requires Stable(source, content, plan) && i < |plan.blobs|
    ensures var d := plan.blobs[i].digest;
            d in content && NameOf(plan, d) in source && source[NameOf(plan, d)] == content[d]
  {
    assert plan.blobs[i] in plan.blobs;
  }

  lemma NextBlobSucceeds(hash: Bytes -> Id, source: map<Id, Bytes>, plan: Plan, store: Store, n: nat)
    requires 0 < n <= |plan.blobs| && CopyBlobs(hash, source, plan, store, [], n - 1).ok
    requires var d := plan.blobs[n - 1].digest;
             && NameOf(plan, d) in source && Verifies(hash, source[NameOf(plan, d)], d)
             && ContentOf(CopyBlobs(hash, source, plan, store, [], n - 1).store, Partial(d)) <= source[NameOf(plan, d)]
    ensures CopyBlobs(hash, source, plan, store, [], n).ok
  {
    var p, d := CopyBlobs(hash, source, plan, store, [], n - 1), plan.blobs[n - 1].digest;
    hide Verifies, CopyBlob, Reported, NameOf, ContentOf;
    UndisturbedCopySucceeds(hash, source, NameOf(plan, d), p.store, d);
  }

  lemma ResumableAt(content: map<Id, Bytes>, store: Store, d: Id)
    requires Resumable(content, store) && d in content
    ensures ContentOf(store, Partial(d)) <= content[d]
  {
  }

  lemma NothingNewYet(hash: Bytes -> Id, content: map<Id, Bytes>, store: Store)
    ensures FinalsSound(hash, content, store, store)
  {
  }

  /** After any interruptions, one undisturbed call finishes the job. */
  lemma InterruptedRunsCanFinish(
    hash: Bytes -> Id, source: map<Id, Bytes>, content: map<Id, Bytes>, start: Store, calls: seq<Call>, plan: Plan)
    requires Resumable(content, start) && (forall c <- calls :: Stable(source, content, c.plan))
    requires Stable(source, content, plan) && plan.strategy != DestinationPull
    requires forall d <- content :: Verifies(hash, content[d], d)
    ensures MaterializeSpec(hash, source, plan, AfterCalls(hash, source, start, calls), []).ok
  {
    RunsKeepSound(hash, source, content, start, calls);
    FaultFreeCallSucceeds(hash, source, content, plan, AfterCalls(hash, source, start, calls), |plan.blobs|);
  }

  // ---------- When resuming does not work ----------

  /** What an undisturbed copy makes of a partial object. */
  function Resumed(partial: Bytes, bytes: Bytes): Bytes {
    partial + From(bytes, |partial|)
  }

  /** Cutting a copy short does not change what it will become. */
  lemma CuttingKeepsResumed(partial: Bytes, bytes: Bytes, n: nat)
    ensures Resumed(partial + Cut(From(bytes, |partial|), n), bytes) == Resumed(partial, bytes)
    ensures Resumed(Resumed(partial, bytes), bytes) == Resumed(partial, bytes)
  {
  }

  /**
   An undisturbed copy succeeds exactly when the blob is held already or what the copy makes of the
   partial verifies.
   */
  lemma CopySucceedsExactlyWhen(hash: Bytes -> Id, source: map<Id, Bytes>, name: Id, store: Store, d: Id)
    ensures CopyBlob(hash, source, name, store, d, NO_FAULT).ok
            <==> || Holds(hash, store, d)
                 || (name in source && Verifies(hash, Resumed(ContentOf(store, Partial(d)), source[name]), d))
  {
    hide Verifies, From;
  }

  /**
   An undisturbed copy of a blob succeeds exactly when it is there already or what is there is a
   prefix of it, unless the resumed object itself has the digest of other bytes.
   */
  lemma ResumesExactlyFromPrefix(
    hash: Bytes -> Id, source: map<Id, Bytes>, name: Id, store: Store, d: Id)
    requires name in source && Verifies(hash, source[name], d)
    requires var resumed := Resumed(ContentOf(store, Partial(d)), source[name]);
             Verifies(hash, resumed, d) ==> resumed == source[name]
    ensures CopyBlob(hash, source, name, store, d, NO_FAULT).ok
            <==> Holds(hash, store, d) || ContentOf(store, Partial(d)) <= source[name]
  {
    CopySucceedsExactlyWhen(hash, source, name, store, d);
    hide Verifies, CopyBlob, Holds;
    PrefixIsResumed(ContentOf(store, Partial(d)), source[name]);
  }

  lemma PrefixIsResumed(partial: Bytes, bytes: Bytes)
    ensures Resumed(partial, bytes) == bytes <==> partial <= bytes
  {
    if partial <= bytes {
      PrefixPlusRest(partial, bytes, 0);
    }
  }

  /** Not held, and the copy can only become something that does not verify. */
  ghost predicate Corrupt(hash: Bytes -> Id, store: Store, d: Id, bytes: Bytes) {
    !Holds(hash, store, d) && !Verifies(hash, Resumed(ContentOf(store, Partial(d)), bytes), d)
  }

  lemma CorruptStays(
    hash: Bytes -> Id, source: map<Id, Bytes>, content: map<Id, Bytes>, name: Id, store: Store, x: Id, fault: Fault,
    d: Id)
    requires x in content && name in source && source[name] == content[x]
    requires d in content && Corrupt(hash, store, d, content[d])
    ensures Corrupt(hash, CopyBlob(hash, source, name, store, x, fault).store, d, content[d])
  {
    var cut := if fault.stop.DuringPut? then fault.stop.written else 0;
    CuttingKeepsResumed(ContentOf(store, Partial(d)), content[d], cut);
    hide Verifies, From, Cut;
  }

  lemma {:induction false} CorruptThroughCall(
    hash: Bytes -> Id, source: map<Id, Bytes>, content: map<Id, Bytes>, plan: Plan, store: Store, faults: seq<Fault>,
    n: nat, d: Id)
    requires Stable(source, content, plan) && n <= |plan.blobs|
    requires d in content && Corrupt(hash, store, d, content[d])
    ensures Corrupt(hash, CopyBlobs(hash, source, plan, store, faults, n).store, d, content[d])
  {
    if n > 0 {
      hide CopyBlob, Corrupt;
      CorruptThroughCall(hash, source, content, plan, store, faults, n - 1, d);
      var p, blob := CopyBlobs(hash, source, plan, store, faults, n - 1), plan.blobs[n - 1];
      assert blob in plan.blobs;
      CorruptStays(hash, source, content, NameOf(plan, blob.digest), p.store, blob.digest,
                   Met(blob, FaultAt(faults, n - 1)), d);
    }
  }

  /** A corrupt partial object is never repaired: no run of calls ever produces a verified final object. */
  lemma {:induction false} CorruptForever(
    hash: Bytes -> Id, source: map<Id, Bytes>, content: map<Id, Bytes>, start: Store, calls: seq<Call>, d: Id)
    requires forall c <- calls :: Stable(source, content, c.plan)
    requires d in content && Corrupt(hash, start, d, content[d])
    ensures Corrupt(hash, AfterCalls(hash, source, start, calls), d, content[d])
  {
    if calls != [] {
      var n := |calls| - 1;
      assert calls[n] in calls;
      CorruptForever(hash, source, content, start, calls[..n], d);
      CorruptThroughCall(hash, source, content, calls[n].plan, AfterCalls(hash, source, start, calls[..n]),
                         calls[n].faults, |calls[n].plan.blobs|, d);
    }
  }

  function ToyHash(bytes: Bytes): Id {
    if bytes == [0] then "zero" else "other"
  }

  /** A destination left with a wrong first byte: every run of calls fails to deliver the blob. */
  lemma WrongByteIsNeverRepaired(calls: seq<Call>)
    requires forall c <- calls :: Stable(map["zero" := [0]], map["zero" := [0]], c.plan)
    ensures var source, start: Store := map["zero" := [0]], map[Partial("zero") := [1]];
            && Verifies(ToyHash, source["zero"], "zero")
            && !Holds(ToyHash, AfterCalls(ToyHash, source, start, calls), "zero")
  {
    var source: map<Id, Bytes>, start: Store := map["zero" := [0]], map[Partial("zero") := [1]];
    assert Resumed([1], [0]) == [1] && [1][0] != [0][0];
    assert "zero"[0] != "other"[0];
    assert Corrupt(ToyHash, start, "zero", [0]);
    CorruptForever(ToyHash, source, source, start, calls, "zero");
  }

  // ---------- No byte is sent twice ----------

  /** How much of the blob the destination holds. */
  ghost function Level(hash: Bytes -> Id, store: Store, d: Id): nat {
    if Holds(hash, store, d) then |store[Final(d)]| else |ContentOf(store, Partial(d))|
  }

  /** Bytes that one call writes for digest `d`. */
  function WrittenByCall(
    hash: Bytes -> Id, source: map<Id, Bytes>, plan: Plan, store: Store, faults: seq<Fault>, n: nat, d: Id): nat
    requires n <= |plan.blobs|
  {
    if n == 0 then 0 else
      var p, blob := CopyBlobs(hash, source, plan, store, faults, n - 1), plan.blobs[n - 1];
      WrittenByCall(hash, source, plan, store, faults, n - 1, d) +
      if p.ok && blob.digest == d
      then CopyBlob(hash, source, NameOf(plan, d), p.store, d, Met(blob, FaultAt(faults, n - 1))).written
      else 0
  }

  function WrittenByRun(hash: Bytes -> Id, source: map<Id, Bytes>, store: Store, calls: seq<Call>, d: Id): nat {
    if calls == [] then 0 else
      var n := |calls| - 1;
      WrittenByRun(hash, source, store, calls[..n], d) +
      if calls[n].plan.strategy == DestinationPull then 0
      else WrittenByCall(hash, source, calls[n].plan, AfterCalls(hash, source, store, calls[..n]), calls[n].faults,
                         |calls[n].plan.blobs|, d)
  }

  lemma CopyBalances(hash: Bytes -> Id, source: map<Id, Bytes>, name: Id, store: Store, x: Id, fault: Fault, d: Id)
    requires !fault.finalUnreadable
    ensures var c := CopyBlob(hash, source, name, store, x, fault);
            Level(hash, c.store, d) == Level(hash, store, d) + if x == d then c.written else 0
  {
  }

  ghost predicate FinalsReadable(faults: seq<Fault>) {
    forall i :: 0 <= i < |faults| ==> !faults[i].finalUnreadable
  }

  lemma {:induction false} CallBalances(
    hash: Bytes -> Id, source: map<Id, Bytes>, plan: Plan, store: Store, faults: seq<Fault>, n: nat, d: Id)
    requires n <= |plan.blobs| && FinalsReadable(faults)
    ensures Level(hash, CopyBlobs(hash, source, plan, store, faults, n).store, d)
         == Level(hash, store, d) + WrittenByCall(hash, source, plan, store, faults, n, d)
  {
    if n > 0 {
      hide CopyBlob, Level, Reported;
      CallBalances(hash, source, plan, store, faults, n - 1, d);
      var p, blob := CopyBlobs(hash, source, plan, store, faults, n - 1), plan.blobs[n - 1];
      CopyBalances(hash, source, NameOf(plan, blob.digest), p.store, blob.digest, Met(blob, FaultAt(faults, n - 1)), d);
    }
  }

  /** What a run writes for a blob is exactly what the destination gains: resuming sends no byte twice. */
  lemma {:induction false} EachByteOnce(
    hash: Bytes -> Id, source: map<Id, Bytes>, start: Store, calls: seq<Call>, d: Id)
    requires forall c <- calls :: FinalsReadable(c.faults)
    ensures Level(hash, AfterCalls(hash, source, start, calls), d)
         == Level(hash, start, d) + WrittenByRun(hash, source, start, calls, d)
  {
    if calls != [] {
      hide Level, CopyBlobs, WrittenByCall;
      var n := |calls| - 1;
      assert calls[n] in calls;
      EachByteOnce(hash, source, start, calls[..n], d);
      CallBalances(hash, source, calls[n].plan, AfterCalls(hash, source, start, calls[..n]), calls[n].faults,
                   |calls[n].plan.blobs|, d);
    }
  }

  /**
   A held blob is sent again exactly when its final object cannot be read, nothing fails before the
   copy and there is something left to send.
   */
  lemma HeldIsSentAgainExactlyWhen(
    hash: Bytes -> Id, source: map<Id, Bytes>, name: Id, store: Store, d: Id, fault: Fault)
    requires Holds(hash, store, d)
    ensures CopyBlob(hash, source, name, store, d, fault).written > 0
            <==> && fault.finalUnreadable && fault.stop != BeforePut && fault.stop != DuringPut(0)
                 && name in source && |source[name]| > |ContentOf(store, Partial(d))|
  {
  }
}
