/**
 Preparing an activity: which blobs a workspace is missing, the transfers that bring them to
 the destination, and the gate that an activity must pass before it reaches a runtime.
 */
module Preparation {
  import opened Graphs
  import opened Outcomes
  import opened Transfer
  import opened TransferLaws
  import ActivityController

  datatype Status = Planned | Reconciling | Transferring | Verifying | Committed | Failed

  datatype Artifact = Artifact(digest: Id, status: Status, verifiedDigest: Id)

  predicate IsCommitted(a: Artifact) {
    a.status == Committed && a.verifiedDigest != "" && a.verifiedDigest == a.digest
  }

  // ---------- Reconciling a workspace ----------

  datatype WorkspaceBlob = WorkspaceBlob(path: Id, digest: Id, size: int, deleted: bool)

  predicate Needed(b: WorkspaceBlob, inventory: set<Id>) {
    !b.deleted && b.digest != "" && b.digest !in inventory
  }

  function Digests(blobs: seq<Blob>): seq<Id> {
    seq(|blobs|, i requires 0 <= i < |blobs| => blobs[i].digest)
  }

  /** `missing` lists each needed digest once. */
  ghost predicate Reconciles(desired: seq<WorkspaceBlob>, inventory: set<Id>, missing: seq<Blob>) {
    && (forall b <- desired :: Needed(b, inventory) ==> b.digest in Digests(missing))
    && (forall m <- missing :: exists b <- desired :: Needed(b, inventory) && m == Blob(b.digest, b.size))
    && Distinct(Digests(missing))
  }

  method ReconcileWorkspace(desired: seq<WorkspaceBlob>, inventory: set<Id>) returns (missing: seq<Blob>)
    ensures Reconciles(desired, inventory, missing)
  {
    missing := [];
    var seen: set<Id> := {};
    for i := 0 to |desired|
      invariant Reconciles(desired[..i], inventory, missing)
      invariant seen == ToSet(Digests(missing))
    {
      var blob := desired[i];
      assert desired[..i + 1] == desired[..i] + [blob];
      if blob.deleted || blob.digest == "" || blob.digest in inventory || blob.digest in seen {
        continue;
      }
      assert Digests(missing + [Blob(blob.digest, blob.size)]) == Digests(missing) + [blob.digest];
      DistinctSnoc(Digests(missing), blob.digest);
      seen := seen + {blob.digest};
      missing := missing + [Blob(blob.digest, blob.size)];
    }
    assert desired[..|desired|] == desired;
  }

  class Workspace {
    var status: Status
    var missing: seq<Blob>
    var verified: seq<Id>

    constructor ()
      ensures status == Planned && missing == [] && verified == []
    {
      status, missing, verified := Planned, [], [];
    }

    method Reconcile(desired: seq<WorkspaceBlob>, inventory: set<Id>)
      modifies this
      ensures status == Reconciling && verified == old(verified)
      ensures Reconciles(desired, inventory, missing)
    {
      status := Reconciling;
      missing := ReconcileWorkspace(desired, inventory);
    }

    /** Commits exactly when every missing blob has been verified; otherwise nothing changes. */
    method Commit(proved: seq<Id>) returns (ok: bool)
      modifies this
      ensures ok <==> forall b <- missing :: b.digest in proved
      ensures missing == old(missing)
      ensures if ok then status == Committed && verified == proved
              else status == old(status) && verified == old(verified)
    {
      for i := 0 to |missing|
        invariant forall k :: 0 <= k < i ==> missing[k].digest in proved
      {
        if missing[i].digest !in proved {
          return false;
        }
      }
      verified, status := proved, Committed;
      ok := true;
    }
  }

  // ---------- The gate ----------

  datatype Gate = Gate(executable: Option<Artifact>, workspace: Workspace?)

  predicate Ready(gate: Gate)
    reads gate.workspace
  {
    && (gate.executable.Some? ==> IsCommitted(gate.executable.value))
    && (gate.workspace != null ==> gate.workspace.status == Committed)
  }

  /** A gate is ready exactly when what it guards is committed, an executable under its own verified digest. */
  lemma ReadyExactlyWhen(gate: Gate)
    ensures Ready(gate) <==>
              && (gate.executable.None?
                  || (gate.executable.value.status == Committed
                      && gate.executable.value.digest == gate.executable.value.verifiedDigest != ""))
              && (gate.workspace == null || gate.workspace.status == Committed)
  {
  }

  /** Final objects survive later calls. */
  lemma {:induction false} HeldSurvivesCopies(
    hash: Bytes -> Id, source: map<Id, Bytes>, plan: Plan, store: Store, faults: seq<Fault>, n: nat, d: Id)
    requires n <= |plan.blobs| && Holds(hash, store, d)
    ensures Holds(hash, CopyBlobs(hash, source, plan, store, faults, n).store, d)
  {
    if n > 0 {
      hide CopyBlob, Holds, Reported, NameOf;
      HeldSurvivesCopies(hash, source, plan, store, faults, n - 1, d);
      var p, blob := CopyBlobs(hash, source, plan, store, faults, n - 1), plan.blobs[n - 1];
      CopyHolds(hash, source, NameOf(plan, blob.digest), p.store, blob.digest, Met(blob, FaultAt(faults, n - 1)), d);
    }
  }

  lemma HeldSurvivesCall(
    hash: Bytes -> Id, source: map<Id, Bytes>, plan: Plan, store: Store, faults: seq<Fault>, d: Id)
    requires Holds(hash, store, d)
    ensures Holds(hash, MaterializeSpec(hash, source, plan, store, faults).store, d)
  {
    HeldSurvivesCopies(hash, source, plan, store, faults, |plan.blobs|, d);
  }

  /** A plan together with the endpoints it runs between and the faults it will meet. */
  datatype Job = Job(plan: Plan, source: map<Id, Bytes>, destination: Endpoint, faults: seq<Fault>)

  datatype Requirement = Requirement(
    artifact: Option<Artifact>,
    artifactJob: Option<Job>,
    workspace: Workspace?,
    workspaceJob: Option<Job>
  )

  ghost function Destinations(r: Requirement): set<object> {
    (if r.artifactJob.Some? then {r.artifactJob.value.destination} else {}) +
    (if r.workspaceJob.Some? then {r.workspaceJob.value.destination} else {})
  }

  /** What the destination must hold before the activity may run. */
  ghost predicate Prepared(hash: Bytes -> Id, r: Requirement)
    reads r.workspace, Destinations(r)
  {
    && (r.artifact.Some? && r.artifactJob.Some?
        && r.artifact.value.digest in Digests(r.artifactJob.value.plan.blobs) ==>
          Holds(hash, r.artifactJob.value.destination.objects, r.artifact.value.digest))
    && (r.workspace != null && r.workspaceJob.Some? ==>
          forall b <- r.workspace.missing ::
            Holds(hash, r.workspaceJob.value.destination.objects, b.digest))
  }

  /** Materializes the artifact; the digest reported as verified is copied from the artifact itself. */
  method PrepareArtifact(hash: Bytes -> Id, artifact: Artifact, job: Job) returns (ok: bool, result: Artifact)
    modifies job.destination
    ensures job.destination.objects ==
              MaterializeSpec(hash, job.source, job.plan, old(job.destination.objects), job.faults).store
    ensures ok <==> MaterializeSpec(hash, job.source, job.plan, old(job.destination.objects), job.faults).ok
    ensures ok ==> result == Artifact(artifact.digest, Committed, artifact.digest)
    ensures ok ==> forall d <- Digests(job.plan.blobs) :: Holds(hash, job.destination.objects, d)
  {
    var verified, transferred;
    CompletedCallHoldsAll(hash, job.source, job.plan, job.destination.objects, job.faults);
    ok, verified, transferred := Materialize(hash, job.source, job.plan, job.destination, job.faults);
    result := if ok then Artifact(artifact.digest, Committed, artifact.digest) else artifact.(status := Failed);
    if ok {
      forall d <- Digests(job.plan.blobs) ensures Holds(hash, job.destination.objects, d) {
        var i :| 0 <= i < |job.plan.blobs| && job.plan.blobs[i].digest == d;
        assert job.plan.blobs[i] in job.plan.blobs;
      }
    }
  }

  method PrepareWorkspace(hash: Bytes -> Id, workspace: Workspace, job: Job) returns (ok: bool)
    modifies workspace, job.destination
    ensures job.destination.objects ==
              MaterializeSpec(hash, job.source, job.plan, old(job.destination.objects), job.faults).store
    ensures ok ==> workspace.status == Committed
    ensures ok ==> forall b <- workspace.missing :: Holds(hash, job.destination.objects, b.digest)
    ensures ok <==> var p := MaterializeSpec(hash, job.source, job.plan, old(job.destination.objects), job.faults);
                    p.ok && forall b <- workspace.missing :: b.digest in p.verified
    ensures workspace.missing == if old(workspace.missing) == [] then job.plan.blobs else old(workspace.missing)
  {
    if workspace.missing == [] {
      workspace.missing := job.plan.blobs;
    }
    var verified, transferred;
    CompletedCallHoldsAll(hash, job.source, job.plan, job.destination.objects, job.faults);
    ok, verified, transferred := Materialize(hash, job.source, job.plan, job.destination, job.faults);
    if !ok {
      return false;
    }
    ok := workspace.Commit(verified);
  }

  /** Which saves of the catalog succeed while an artifact is prepared. */
  datatype Catalog = Catalog(started: bool, transfer: bool, result: bool)

  /** The transfer of a job onto this store. */
  ghost function Outcome(hash: Bytes -> Id, job: Job, store: Store): Progress {
    MaterializeSpec(hash, job.source, job.plan, store, job.faults)
  }

  /** The artifact has a digest and a transfer that succeeds, and every save goes through. */
  ghost predicate ArtifactOpens(hash: Bytes -> Id, artifact: Artifact, job: Option<Job>, catalog: Catalog)
    reads if job.Some? then {job.value.destination} else {}
  {
    && artifact.digest != "" && catalog == Catalog(true, true, true)
    && job.Some? && Outcome(hash, job.value, job.value.destination.objects).ok
  }

  /** The workspace has a transfer that verifies each missing blob, or each planned one when none is listed. */
  ghost predicate WorkspaceOpens(hash: Bytes -> Id, missing: seq<Blob>, job: Job, store: Store) {
    var p := Outcome(hash, job, store);
    p.ok && forall b <- (if missing == [] then job.plan.blobs else missing) :: b.digest in p.verified
  }

  /** What the destination of the workspace holds once the artifact is there. */
  ghost function WorkspaceStore(hash: Bytes -> Id, r: Requirement): Store
    requires r.workspaceJob.Some?
    reads Destinations(r)
  {
    var store := r.workspaceJob.value.destination.objects;
    if r.artifact.Some? && r.artifactJob.Some? && r.artifactJob.value.destination == r.workspaceJob.value.destination
    then Outcome(hash, r.artifactJob.value, store).store
    else store
  }

  /** The requirement can be met: its artifact first, then its workspace. */
  ghost predicate Opens(hash: Bytes -> Id, r: Requirement, catalog: Catalog)
    reads r.workspace, Destinations(r)
  {
    && (r.artifact.Some? ==> ArtifactOpens(hash, r.artifact.value, r.artifactJob, catalog))
    && (r.workspace != null ==>
          && r.workspaceJob.Some?
          && WorkspaceOpens(hash, r.workspace.missing, r.workspaceJob.value, WorkspaceStore(hash, r)))
  }

  /** Runs the transfers of a requirement; a gate is handed out only when everything is in place. */
  method Prepare(hash: Bytes -> Id, r: Requirement, catalog: Catalog) returns (gate: Option<Gate>)
    modifies r.workspace, Destinations(r)
    ensures gate.Some? ==> Ready(gate.value) && Prepared(hash, r)
    ensures gate.Some? ==> gate.value.workspace == r.workspace && (gate.value.executable.Some? <==> r.artifact.Some?)
    ensures gate.Some? ==> (r.artifact.Some? ==> r.artifactJob.Some?) && (r.workspace != null ==> r.workspaceJob.Some?)
    ensures gate.Some? <==> old(Opens(hash, r, catalog))
    ensures gate.Some? && r.artifact.Some? ==>
              var a := gate.value.executable.value;
              a.status == Committed && a.digest == a.verifiedDigest == r.artifact.value.digest != ""
  {
    var executable: Option<Artifact> := None;
    if r.artifact.Some? {
      if r.artifactJob.None? || !catalog.started {
        return None;
      }
      var ok, result := PrepareArtifact(hash, r.artifact.value, r.artifactJob.value);
      if !catalog.transfer || !catalog.result || !ok {
        return None;
      }
      executable := Some(result);
    }
    if r.workspace != null {
      if r.workspaceJob.None? {
        return None;
      }
      ghost var job := r.workspaceJob.value;
      ghost var before := job.destination.objects;
      var ok := PrepareWorkspace(hash, r.workspace, r.workspaceJob.value);
      if !ok {
        return None;
      }
      if r.artifact.Some? && r.artifactJob.value.destination == job.destination
         && r.artifact.value.digest in Digests(r.artifactJob.value.plan.blobs)
      {
        HeldSurvivesCall(hash, job.source, job.plan, before, job.faults, r.artifact.value.digest);
      }
    }
    if executable.Some? && !IsCommitted(executable.value) {
      return None;
    }
    gate := Some(Gate(executable, r.workspace));
  }

  /**
   How an activity reaches its runtime: through its preparation if it has one, and through the
   gate check of the controller in any case.  `None` says that preparing failed.
   */
  method StartActivity(hash: Bytes -> Id, requirement: Option<Requirement>, preparer: bool, needsExecutable: bool,
                       catalog: Catalog, controller: ActivityController.Controller, key: ActivityController.Key,
                       answers: ActivityController.StartAnswers)
    returns (r: Option<Result<ActivityController.Handle, ActivityController.Refusal>>)
    requires controller.Valid()
    modifies controller
    modifies if requirement.Some? then {requirement.value.workspace} + Destinations(requirement.value) else {}
    ensures controller.Valid() && old(controller.log) <= controller.log
    ensures r.None? ==> controller.log == old(controller.log)
    ensures r.None? <==>
              old(if requirement.Some? then !preparer || !Opens(hash, requirement.value, catalog) else needsExecutable)
    ensures r.Some? ==>
              (r.value.Ok? <==> answers.accepted && answers.storeReadable
                                && (key in old(controller.handles) || ActivityController.Starts(key, answers)))
    ensures r.Some? && r.value.Ok? && key !in old(controller.handles) ==>
              controller.log
              == old(controller.log) + [ActivityController.RuntimeStarted(key), ActivityController.HandleSaved(key)]
    ensures controller.log != old(controller.log) ==>
              if requirement.Some?
              then Prepared(hash, requirement.value)
                   && (requirement.value.workspace != null ==> requirement.value.workspace.status == Committed)
              else !needsExecutable
  {
    var gate: Option<Gate> := None;
    if requirement.Some? {
      if !preparer {
        return None;
      }
      gate := Prepare(hash, requirement.value, catalog);
      if gate.None? {
        return None;
      }
    } else if needsExecutable {
      return None;
    }
    var ready := gate.Some? ==> Ready(gate.value);
    var started := controller.Start(key, answers.(accepted := answers.accepted && ready));
    r := Some(started);
  }

  // ---------- Laws ----------

  /** A copy leaves the objects of other digests alone. */
  lemma {:induction false} UnlistedIsUntouched(
    hash: Bytes -> Id, source: map<Id, Bytes>, plan: Plan, store: Store, faults: seq<Fault>, n: nat, d: Id)
    requires n <= |plan.blobs| && d !in Digests(plan.blobs)
    ensures Holds(hash, CopyBlobs(hash, source, plan, store, faults, n).store, d) <==> Holds(hash, store, d)
  {
    if n > 0 {
      UnlistedIsUntouched(hash, source, plan, store, faults, n - 1, d);
      assert Digests(plan.blobs)[n - 1] == plan.blobs[n - 1].digest;
    }
  }

  /** After a call that succeeds, a digest is held exactly when the plan lists it or it was held before. */
  lemma HeldExactlyWhenListed(
    hash: Bytes -> Id, source: map<Id, Bytes>, plan: Plan, store: Store, faults: seq<Fault>, digest: Id)
    requires MaterializeSpec(hash, source, plan, store, faults).ok
    ensures Holds(hash, MaterializeSpec(hash, source, plan, store, faults).store, digest)
            <==> digest in Digests(plan.blobs) || Holds(hash, store, digest)
  {
    CompletedCallHoldsAll(hash, source, plan, store, faults);
    if digest in Digests(plan.blobs) {
      var i :| 0 <= i < |plan.blobs| && plan.blobs[i].digest == digest;
      assert plan.blobs[i] in plan.blobs;
    } else {
      UnlistedIsUntouched(hash, source, plan, store, faults, |plan.blobs|, digest);
    }
  }

  /** Every blob of the revision that is not deleted and has a digest is in place. */
  ghost predicate Present(hash: Bytes -> Id, store: Store, desired: seq<WorkspaceBlob>) {
    forall b <- desired :: !b.deleted && b.digest != "" ==> Holds(hash, store, b.digest)
  }

  /** Whatever the inventory claims of the revision is true, or is copied anyway. */
  ghost predicate Truthful(
    hash: Bytes -> Id, store: Store, desired: seq<WorkspaceBlob>, inventory: set<Id>, blobs: seq<Blob>)
  {
    forall b <- desired :: !b.deleted && b.digest != "" && b.digest in inventory ==>
      b.digest in Digests(blobs) || Holds(hash, store, b.digest)
  }

  /**
   When a transfer succeeds and proves the missing blobs, the whole revision is in place exactly
   when the inventory was truthful before the transfer.
   */
  lemma CommittedWorkspaceIsComplete(
    hash: Bytes -> Id, source: map<Id, Bytes>, plan: Plan, store: Store, faults: seq<Fault>,
    desired: seq<WorkspaceBlob>, inventory: set<Id>, missing: seq<Blob>)
    requires Reconciles(desired, inventory, missing)
    requires var p := MaterializeSpec(hash, source, plan, store, faults);
             p.ok && forall b <- missing :: b.digest in p.verified
    ensures Present(hash, MaterializeSpec(hash, source, plan, store, faults).store, desired)
            <==> Truthful(hash, store, desired, inventory, plan.blobs)
  {
    var p := MaterializeSpec(hash, source, plan, store, faults);
    CompletedCallHoldsAll(hash, source, plan, store, faults);
    hide MaterializeSpec, Holds;
    forall b <- desired | !b.deleted && b.digest != ""
      ensures Holds(hash, p.store, b.digest) <==>
              (b.digest in inventory ==> b.digest in Digests(plan.blobs) || Holds(hash, store, b.digest))
    {
      if b.digest in inventory {
        HeldExactlyWhenListed(hash, source, plan, store, faults, b.digest);
      } else {
        assert Needed(b, inventory);
        var i :| 0 <= i < |missing| && missing[i].digest == b.digest;
        assert missing[i] in missing;
      }
    }
  }

  /** Reconciling, transferring and committing one workspace. */
  method SynchronizeWorkspace(
    hash: Bytes -> Id, workspace: Workspace, desired: seq<WorkspaceBlob>, inventory: set<Id>, job: Job)
    returns (ok: bool)
    modifies workspace, job.destination
    ensures ok ==> workspace.status == Committed
    ensures ok ==> (Present(hash, job.destination.objects, desired)
                    <==> Truthful(hash, old(job.destination.objects), desired, inventory, job.plan.blobs))
    ensures ok && (forall d <- inventory :: Holds(hash, old(job.destination.objects), d)) ==>
              Present(hash, job.destination.objects, desired)
  {
    workspace.Reconcile(desired, inventory);
    ghost var missing, before := workspace.missing, job.destination.objects;
    ok := PrepareWorkspace(hash, workspace, job);
    if ok {
      CommittedWorkspaceIsComplete(hash, job.source, job.plan, before, job.faults, desired, inventory, missing);
    }
  }

  /**
   The verified digest of an artifact is copied, not measured: a plan that does not list the
   artifact's digest succeeds and opens the gate although the destination does not hold it.
   */
  lemma UnlistedArtifactIsNotHeld(
    hash: Bytes -> Id, source: map<Id, Bytes>, content: map<Id, Bytes>, plan: Plan, digest: Id)
    requires Stable(source, content, plan) && plan.strategy != DestinationPull && digest != ""
    requires forall d <- content :: Verifies(hash, content[d], d)
    requires digest !in Digests(plan.blobs)
    ensures var p := MaterializeSpec(hash, source, plan, map[], []);
            p.ok && !Holds(hash, p.store, digest) && IsCommitted(Artifact(digest, Committed, digest))
  {
    FaultFreeCallSucceeds(hash, source, content, plan, map[], |plan.blobs|);
    HeldExactlyWhenListed(hash, source, plan, map[], [], digest);
  }

  // ---------- Planning a transfer ----------

  function Absent(blobs: seq<Blob>, available: set<Id>): seq<Blob> {
    if blobs == [] then [] else
      var n := |blobs| - 1;
      Absent(blobs[..n], available) + (if blobs[n].digest !in available then [blobs[n]] else [])
  }

  datatype Location = Location(uri: Id, path: Id)

  /** Plans to copy what the destination does not report; nothing when both ends are the same place. */
  method PlanTransfer(source: Location, destination: Location, blobs: seq<Blob>, available: set<Id>)
    returns (plan: Plan)
    ensures plan == if source == destination then Plan(UseExisting, source.path, [])
                    else Plan(SourcePush, source.path, Absent(blobs, available))
  {
    if source.uri == destination.uri && source.path == destination.path {
      return Plan(UseExisting, source.path, []);
    }
    var chosen := [];
    for i := 0 to |blobs|
      invariant chosen == Absent(blobs[..i], available)
    {
      assert blobs[..i + 1][..i] == blobs[..i];
      if blobs[i].digest !in available {
        chosen := chosen + [blobs[i]];
      }
    }
    assert blobs[..|blobs|] == blobs;
    plan := Plan(SourcePush, source.path, chosen);
  }

  lemma {:induction false} AbsentOrAvailable(blobs: seq<Blob>, available: set<Id>)
    ensures forall b <- blobs :: b.digest in available || b in Absent(blobs, available)
  {
    if blobs != [] {
      var n := |blobs| - 1;
      AbsentOrAvailable(blobs[..n], available);
      assert blobs == blobs[..n] + [blobs[n]];
    }
  }

  /** With truthful availability, a planned transfer that completes leaves every blob in place. */
  lemma PlannedTransferIsComplete(
    hash: Bytes -> Id, source: map<Id, Bytes>, path: Id, store: Store, blobs: seq<Blob>, available: set<Id>,
    faults: seq<Fault>)
    requires forall d <- available :: Holds(hash, store, d)
    ensures var p := MaterializeSpec(hash, source, Plan(SourcePush, path, Absent(blobs, available)), store, faults);
            p.ok ==> forall b <- blobs :: Holds(hash, p.store, b.digest)
  {
    var plan := Plan(SourcePush, path, Absent(blobs, available));
    var p := MaterializeSpec(hash, source, plan, store, faults);
    AbsentOrAvailable(blobs, available);
    CompletedCallHoldsAll(hash, source, plan, store, faults);
    hide MaterializeSpec, Holds, Absent;
    if p.ok {
      forall b <- blobs ensures Holds(hash, p.store, b.digest) {
        if b.digest in available {
          HeldSurvivesCall(hash, source, plan, store, faults, b.digest);
        }
      }
    }
  }
}
