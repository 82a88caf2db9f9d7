/**
 Content-addressed, resumable transfer.  Each blob is copied into a partial object, resuming
 where an earlier copy stopped, verified against its digest, and only then renamed to its
 final name.  A call may fail at any point; the store keeps whatever was written.
 */
module Transfer {
  import opened Graphs
  import opened Outcomes

  type Bytes = seq<bv8>

  /** Destination names: the object under its digest, and the copy in progress next to it. */
  datatype Name = Final(digest: Id) | Partial(digest: Id)

  type Store = map<Name, Bytes>

  datatype Blob = Blob(digest: Id, size: int)

  datatype Strategy = UseExisting | DestinationPull | SourcePush | Gateway

  datatype Plan = Plan(strategy: Strategy, sourcePath: Id, blobs: seq<Blob>)

  /** Where a copy is interrupted. */
  datatype Stop =
    | Never
    | BeforePut              // reading the partial or opening the source fails
    | DuringPut(written: nat) // the copy breaks off after this many bytes
    | Sizing                 // measuring the source after the copy fails
    | AfterPut               // reading back or renaming fails

  datatype Fault = Fault(finalUnreadable: bool, stop: Stop)

  const NO_FAULT := Fault(false, Never)

  /** The source is measured only for a blob of unknown size; failing to do so is failing after the copy. */
  function Met(blob: Blob, fault: Fault): Fault {
    if fault.stop == Sizing then fault.(stop := if blob.size <= 0 then AfterPut else Never) else fault
  }

  function FaultAt(faults: seq<Fault>, i: nat): Fault {
    if i < |faults| then faults[i] else NO_FAULT
  }

  function TrimPrefix(digest: Id): Id {
    if |digest| >= 7 && digest[..7] == "sha256:" then digest[7..] else digest
  }

  /** `hash` is the hexadecimal SHA-256 of the bytes; nothing about it is assumed. */
  predicate Verifies(hash: Bytes -> Id, bytes: Bytes, digest: Id) {
    hash(bytes) == TrimPrefix(digest)
  }

  /** A digest may carry its algorithm; any other digest is compared as it is. */
  lemma PrefixDoesNotMatter(hash: Bytes -> Id, bytes: Bytes, hex: Id)
    ensures Verifies(hash, bytes, "sha256:" + hex) <==> hash(bytes) == hex
    ensures !("sha256:" <= hex) ==> (Verifies(hash, bytes, hex) <==> hash(bytes) == hex)
  {
    assert ("sha256:" + hex)[..7] == "sha256:" && ("sha256:" + hex)[7..] == hex;
    assert |hex| >= 7 && hex[..7] == "sha256:" ==> "sha256:" <= hex;
  }

  function SourceName(configured: Id, digest: Id, count: nat): Id {
    if configured != "" && count == 1 then configured else digest
  }

  function NameOf(plan: Plan, digest: Id): Id {
    SourceName(plan.sourcePath, digest, |plan.blobs|)
  }

  /** Only a plan of one blob reads from its path, and only when it has one; otherwise every blob has its own name. */
  lemma NamesAreOwn(plan: Plan, digest: Id)
    ensures NameOf(plan, digest) == digest || (NameOf(plan, digest) == plan.sourcePath != "" && |plan.blobs| == 1)
    ensures |plan.blobs| == 1 && plan.sourcePath != "" ==> NameOf(plan, digest) == plan.sourcePath
  {
  }

  function ContentOf(store: Store, name: Name): Bytes {
    if name in store then store[name] else []
  }

  /** What a reader opened at `offset` delivers. */
  function From(bytes: Bytes, offset: nat): Bytes {
    if offset <= |bytes| then bytes[offset..] else []
  }

  function Cut(bytes: Bytes, n: nat): Bytes {
    if n <= |bytes| then bytes[..n] else bytes
  }

  // ---------- One blob ----------

  /** The effect on the store, whether the blob is verified, and how many bytes were written. */
  datatype Copied = Copied(store: Store, ok: bool, written: nat)

  function CopyBlob(hash: Bytes -> Id, source: map<Id, Bytes>, name: Id, store: Store, d: Id, fault: Fault): Copied {
    if !fault.finalUnreadable && Final(d) in store && Verifies(hash, store[Final(d)], d) then
      Copied(store, true, 0)
    else if fault.stop == BeforePut || name !in source then
      Copied(store, false, 0)
    else
      var partial := ContentOf(store, Partial(d));
      var rest := From(source[name], |partial|);
      if fault.stop.DuringPut? then
        Copied(store[Partial(d) := partial + Cut(rest, fault.stop.written)], false, |Cut(rest, fault.stop.written)|)
      else
        var whole := partial + rest;
        if fault.stop == AfterPut || !Verifies(hash, whole, d) then
          Copied(store[Partial(d) := whole], false, |rest|)
        else
          Copied((store - {Partial(d)})[Final(d) := whole], true, |rest|)
  }

  // ---------- One call ----------

  datatype Progress = Progress(store: Store, verified: seq<Id>, transferred: int, ok: bool)

  /** What the run reports as transferred for a blob that had to be copied. */
  function Reported(source: map<Id, Bytes>, name: Id, blob: Blob, offset: nat): int {
    var size := if blob.size > 0 then blob.size else if name in source then |source[name]| else 0;
    if size > offset then size - offset else 0
  }

  /** The copy breaks off before its bytes are counted. */
  predicate Unmeasured(blob: Blob, fault: Fault) {
    fault.stop == BeforePut || fault.stop.DuringPut? || (fault.stop == Sizing && blob.size <= 0)
  }

  function CopyNext(hash: Bytes -> Id, source: map<Id, Bytes>, plan: Plan, p: Progress, blob: Blob, fault: Fault)
    : Progress
  {
    var name, d := NameOf(plan, blob.digest), blob.digest;
    var c := CopyBlob(hash, source, name, p.store, d, Met(blob, fault));
    var skipped := !fault.finalUnreadable && Final(d) in p.store && Verifies(hash, p.store[Final(d)], d);
    Progress(
      c.store,
      if c.ok then p.verified + [d] else p.verified,
      if skipped || Unmeasured(blob, fault) || name !in source then p.transferred
      else p.transferred + Reported(source, name, blob, |ContentOf(p.store, Partial(d))|),
      c.ok)
  }

  /** The state after the first `n` blobs; the first blob that fails ends the call. */
  function CopyBlobs(hash: Bytes -> Id, source: map<Id, Bytes>, plan: Plan, store: Store, faults: seq<Fault>, n: nat)
    : Progress
    requires n <= |plan.blobs|
  {
    if n == 0 then Progress(store, [], 0, true) else
      var p := CopyBlobs(hash, source, plan, store, faults, n - 1);
      if !p.ok then p else CopyNext(hash, source, plan, p, plan.blobs[n - 1], FaultAt(faults, n - 1))
  }

  /** The whole call. A pull by the destination is refused before anything is read. */
  function MaterializeSpec(hash: Bytes -> Id, source: map<Id, Bytes>, plan: Plan, store: Store, faults: seq<Fault>)
    : Progress
  {
    if plan.strategy == DestinationPull then Progress(store, [], 0, false)
    else CopyBlobs(hash, source, plan, store, faults, |plan.blobs|)
  }

  // ---------- The connector and the materializer ----------

  /** A file tree behind an endpoint, as the local filesystem connector provides it. */
  class Endpoint {
    var objects: Store

    constructor (initial: Store)
      ensures objects == initial
    {
      objects := initial;
    }

    /**
     Writes at `offset`, keeping what is before it; writing at the start replaces everything, and a
     gap before the offset is filled with zeros.  With `cut`, only that many bytes arrive before the
     copy breaks off.
     */
    method Put(name: Name, input: Bytes, offset: nat, cut: Option<nat>) returns (ok: bool)
      modifies this
      ensures ok <==> cut.None?
      ensures objects == old(objects)[name := Written(ContentOf(old(objects), name),
                                                      if cut.None? then input else Cut(input, cut.value), offset)]
    {
      var file := ContentOf(objects, name);
      if offset == 0 {
        file := [];
      }
      var arrived := if cut.None? then input else Cut(input, cut.value);
      if arrived != [] {
        if |file| < offset {
          file := file + Zeros(offset - |file|);
        }
        file := file[..offset] + arrived + From(file, offset + |arrived|);
      }
      assert offset == 0 ==> file == arrived;
      objects := objects[name := file];
      ok := cut.None?;
    }

    /** Renames the partial object; an existing final object is replaced, a missing partial is an error. */
    method Commit(partial: Name, final: Name) returns (ok: bool)
      modifies this
      ensures ok <==> partial in old(objects)
      ensures objects == if ok then Renamed(old(objects), partial, final) else old(objects)
    {
      if partial !in objects {
        return false;
      }
      objects := Renamed(objects, partial, final);
      ok := true;
    }
  }

  function Zeros(n: nat): Bytes {
    seq(n, _ => 0)
  }

  function Renamed(objects: Store, from: Name, to: Name): Store
    requires from in objects
  {
    (objects - {from})[to := objects[from]]
  }

  /** A file after `arrived` was written into it at `offset`. */
  function Written(was: Bytes, arrived: Bytes, offset: nat): Bytes {
    if offset == 0 then arrived
    else if arrived == [] then was
    else
      var padded := if |was| < offset then was + Zeros(offset - |was|) else was;
      padded[..offset] + arrived + From(padded, offset + |arrived|)
  }

  /** What is before the offset and behind what arrived stays, what arrived lies between, and gaps are zero. */
  lemma WrittenHolds(was: Bytes, arrived: Bytes, offset: nat)
    ensures var file := Written(was, arrived, offset);
            && (arrived != [] ==>
                  && |file| >= offset + |arrived| && file[offset..][..|arrived|] == arrived
                  && (forall k :: 0 <= k < offset ==> file[k] == if k < |was| then was[k] else 0)
                  && (offset > 0 ==> file[offset + |arrived|..] == From(was, offset + |arrived|)))
            && (offset == 0 ==> |file| == |arrived|)
            && (offset > 0 && arrived == [] ==> file == was)
  {
  }

  lemma AppendsAtTheEnd(was: Bytes, arrived: Bytes)
    ensures Written(was, arrived, |was|) == was + arrived
  {
  }

  method MaterializeBlob(
    hash: Bytes -> Id, source: map<Id, Bytes>, name: Id, destination: Endpoint, blob: Blob, fault: Fault)
    returns (ok: bool, transferred: int)
    modifies destination
    ensures var c := CopyBlob(hash, source, name, old(destination.objects), blob.digest, Met(blob, fault));
            destination.objects == c.store && ok == c.ok
    ensures transferred ==
              if (!fault.finalUnreadable && Final(blob.digest) in old(destination.objects)
                  && Verifies(hash, old(destination.objects)[Final(blob.digest)], blob.digest))
                 || Unmeasured(blob, fault) || name !in source then 0
              else Reported(source, name, blob, |ContentOf(old(destination.objects), Partial(blob.digest))|)
  {
    var final, partial := Final(blob.digest), Partial(blob.digest);
    transferred := 0;
    if !fault.finalUnreadable && final in destination.objects
       && Verifies(hash, destination.objects[final], blob.digest)
    {
      return true, 0;
    }
    if fault.stop == BeforePut || name !in source {
      return false, 0;
    }
    var offset := |ContentOf(destination.objects, partial)|;
    var input := From(source[name], offset);
    var cut := if fault.stop.DuringPut? then Some(fault.stop.written) else None;
    ghost var was := ContentOf(destination.objects, partial);
    ok := destination.Put(partial, input, offset, cut);
    AppendsAtTheEnd(was, if cut.None? then input else Cut(input, cut.value));
    if !ok {
      return false, 0;
    }
    if blob.size <= 0 && fault.stop == Sizing {
      return false, 0;
    }
    transferred := Reported(source, name, blob, offset);
    if fault.stop == AfterPut || !Verifies(hash, destination.objects[partial], blob.digest) {
      return false, transferred;
    }
    ok := destination.Commit(partial, final);
  }

  /** One materialization: copies the blobs of the plan in order until one fails. */
  method Materialize(
    hash: Bytes -> Id, source: map<Id, Bytes>, plan: Plan, destination: Endpoint, faults: seq<Fault>)
    returns (ok: bool, verified: seq<Id>, transferred: int)
    modifies destination
    ensures var p := MaterializeSpec(hash, source, plan, old(destination.objects), faults);
            && destination.objects == p.store
            && ok == p.ok && verified == p.verified && transferred == p.transferred
  {
    hide CopyBlob, Reported;
    verified, transferred := [], 0;
    if plan.strategy == DestinationPull {
      return false, [], 0;
    }
    ghost var store := destination.objects;
    for i := 0 to |plan.blobs|
      invariant Progress(destination.objects, verified, transferred, true)
             == CopyBlobs(hash, source, plan, store, faults, i)
    {
      var blob := plan.blobs[i];
      var copied, moved :=
        MaterializeBlob(hash, source, NameOf(plan, blob.digest), destination, blob, FaultAt(faults, i));
      transferred := transferred + moved;
      if !copied {
        StoppedCopy(hash, source, plan, store, faults, i + 1);
        return false, verified, transferred;
      }
      verified := verified + [blob.digest];
    }
    ok := true;
  }

  /** A call that stopped at some blob ends there. */
  lemma {:induction false} StoppedCopy(
    hash: Bytes -> Id, source: map<Id, Bytes>, plan: Plan, store: Store, faults: seq<Fault>, n: nat)
    requires n <= |plan.blobs| && !CopyBlobs(hash, source, plan, store, faults, n).ok
    ensures CopyBlobs(hash, source, plan, store, faults, |plan.blobs|)
         == CopyBlobs(hash, source, plan, store, faults, n)
    decreases |plan.blobs| - n
  {
    if n < |plan.blobs| {
      StoppedCopy(hash, source, plan, store, faults, n + 1);
    }
  }
}
