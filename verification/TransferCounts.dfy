/** What a transfer reports as transferred is what it wrote. */
module TransferCounts {
  import opened Graphs
  import opened Transfer

  /** The stated size of a blob, if any, is the size of its source. */
  ghost predicate SizeIsTrue(source: map<Id, Bytes>, plan: Plan, blob: Blob) {
    var name := NameOf(plan, blob.digest);
    blob.size <= 0 || (name in source && blob.size == |source[name]|)
  }

  /** The copy breaks off after some bytes were written and before they are counted. */
  ghost predicate BreaksOff(blob: Blob, fault: Fault) {
    fault.stop.DuringPut? || (fault.stop == Sizing && blob.size <= 0)
  }

  ghost function Copy(hash: Bytes -> Id, source: map<Id, Bytes>, plan: Plan, store: Store, blob: Blob, fault: Fault)
    : Copied
  {
    CopyBlob(hash, source, NameOf(plan, blob.digest), store, blob.digest, Met(blob, fault))
  }

  /** A copy that does not break off counts the bytes it writes, resumed or not. */
  lemma CountedIsWritten(
    hash: Bytes -> Id, source: map<Id, Bytes>, plan: Plan, p: Progress, blob: Blob, fault: Fault)
    requires SizeIsTrue(source, plan, blob)
    ensures CopyNext(hash, source, plan, p, blob, fault).transferred
         == p.transferred + if BreaksOff(blob, fault) then 0 else Copy(hash, source, plan, p.store, blob, fault).written
    ensures CopyNext(hash, source, plan, p, blob, fault).ok ==>
              !BreaksOff(blob, fault) || Copy(hash, source, plan, p.store, blob, fault).written == 0
  {
    hide Verifies;
  }

  /** A copy made to its end counts right exactly when the stated size is true or nothing is left to send anyway. */
  lemma CountsRightExactlyWhen(
    hash: Bytes -> Id, source: map<Id, Bytes>, plan: Plan, p: Progress, blob: Blob, fault: Fault)
    requires NameOf(plan, blob.digest) in source && fault.stop != BeforePut && !BreaksOff(blob, fault)
    requires fault.finalUnreadable || Final(blob.digest) !in p.store
             || !Verifies(hash, p.store[Final(blob.digest)], blob.digest)
    ensures var offset := |ContentOf(p.store, Partial(blob.digest))|;
            var counted := CopyNext(hash, source, plan, p, blob, fault).transferred - p.transferred;
            counted == Copy(hash, source, plan, p.store, blob, fault).written
            <==> || SizeIsTrue(source, plan, blob)
                 || (blob.size <= offset && |source[NameOf(plan, blob.digest)]| <= offset)
  {
    hide Verifies;
  }

  /** A blob of one byte stated to have five is reported as five. */
  lemma WrongSizeIsReported(hash: Bytes -> Id)
    ensures var blob, source := Blob("d", 5), map["d" := [0]];
            var plan, empty := Plan(SourcePush, "", [blob]), Progress(map[], [], 0, true);
            && CopyNext(hash, source, plan, empty, blob, NO_FAULT).transferred == 5
            && Copy(hash, source, plan, empty.store, blob, NO_FAULT).written == 1
  {
  }

  /** The bytes that the first `n` blobs of a call write. */
  ghost function Sent(hash: Bytes -> Id, source: map<Id, Bytes>, plan: Plan, store: Store, faults: seq<Fault>, n: nat)
    : nat
    requires n <= |plan.blobs|
  {
    if n == 0 then 0 else
      var p := CopyBlobs(hash, source, plan, store, faults, n - 1);
      Sent(hash, source, plan, store, faults, n - 1) +
      if p.ok then Copy(hash, source, plan, p.store, plan.blobs[n - 1], FaultAt(faults, n - 1)).written else 0
  }

  /** A call reports at most what it wrote, and all of it when it succeeds. */
  lemma {:induction false} CallCountsWhatItSends(
    hash: Bytes -> Id, source: map<Id, Bytes>, plan: Plan, store: Store, faults: seq<Fault>, n: nat)
    requires n <= |plan.blobs| && forall b <- plan.blobs :: SizeIsTrue(source, plan, b)
    ensures var p := CopyBlobs(hash, source, plan, store, faults, n);
            && p.transferred <= Sent(hash, source, plan, store, faults, n)
            && (p.ok ==> p.transferred == Sent(hash, source, plan, store, faults, n))
  {
    if n > 0 {
      hide CopyNext, Copy, BreaksOff, SizeIsTrue;
      CallCountsWhatItSends(hash, source, plan, store, faults, n - 1);
      var p, blob := CopyBlobs(hash, source, plan, store, faults, n - 1), plan.blobs[n - 1];
      assert blob in plan.blobs;
      CountedIsWritten(hash, source, plan, p, blob, FaultAt(faults, n - 1));
    }
  }

  /** The answer of a whole call. */
  lemma ReportIsWhatWasSent(hash: Bytes -> Id, source: map<Id, Bytes>, plan: Plan, store: Store, faults: seq<Fault>)
    requires forall b <- plan.blobs :: SizeIsTrue(source, plan, b)
    ensures var p := MaterializeSpec(hash, source, plan, store, faults);
            && p.transferred <= Sent(hash, source, plan, store, faults, |plan.blobs|)
            && (p.ok ==> p.transferred == Sent(hash, source, plan, store, faults, |plan.blobs|))
  {
    CallCountsWhatItSends(hash, source, plan, store, faults, |plan.blobs|);
  }

  /** A call may break off after any number of bytes, and leaves exactly these behind. */
  lemma AnyCutIsPossible(hash: Bytes -> Id, source: map<Id, Bytes>, plan: Plan, k: nat)
    requires plan.strategy != DestinationPull && plan.blobs != []
    requires var name := NameOf(plan, plan.blobs[0].digest); name in source && k <= |source[name]|
    ensures var d := plan.blobs[0].digest;
            MaterializeSpec(hash, source, plan, map[], [Fault(false, DuringPut(k))])
            == Progress(map[Partial(d) := source[NameOf(plan, d)][..k]], [], 0, false)
  {
    var faults := [Fault(false, DuringPut(k))];
    assert FaultAt(faults, 0) == faults[0];
    assert CopyBlobs(hash, source, plan, map[], faults, 0).ok;
    var bytes := source[NameOf(plan, plan.blobs[0].digest)];
    assert [] + Cut(From(bytes, 0), k) == bytes[..k];
    assert !CopyBlobs(hash, source, plan, map[], faults, 1).ok;
    StoppedCopy(hash, source, plan, map[], faults, 1);
  }
}
