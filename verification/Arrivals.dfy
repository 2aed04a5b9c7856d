/** Done means equal: when the executor marks an operation done, both devices hold the
    same bytes, whatever their indexes say and however old the manifest is
    (crates/syncer-agent/src/main.rs:784-1068). */
module Arrivals {
  import opened Wrappers
  import opened Domain
  import opened StateTables
  import opened Devices
  import opened PeerCrypto
  import opened PeerServer
  import opened SyncEngine
  import opened Safety
  import opened Runs
  import opened Reachability
  import opened Effects
  import opened Interleaving
  import opened Jobs
  import opened Replacements
  import QueueMachine

  /** The hash and size an operation recorded of the side it reads from. */
  function SourceHash(op: Operation): Option<Digest> {
    if op.kind == Download then op.remoteHash else op.localHash
  }

  function SourceSize(op: Operation): Option<nat> {
    if op.kind == Download then op.remoteSize else op.localSize
  }

  /** Both devices hold the same bytes at the operation's path, and they are those
      it recorded of the source. */
  predicate EqualAsRecorded(w: World, op: Operation) {
    && op.path in w.local.disk && op.path in w.peer.disk
    && w.local.disk[op.path] == w.peer.disk[op.path]
    && (SourceHash(op).Some? ==> SourceHash(op) == Some(Blake3(w.peer.disk[op.path])))
    && (SourceSize(op).Some? ==> SourceSize(op) == Some(|w.peer.disk[op.path]|))
  }

  // ------------------------------------------------------------------
  // One operation in any state
  // ------------------------------------------------------------------

  lemma DownloadArrives(w: World, channel: Channel, manifest: Manifest, op: Operation)
    requires Sound(w.peer) && channel.aead.Correct() && op.kind == Download
    requires DownloadOperation(w, channel, manifest, op).result.Ok?
    ensures EqualAsRecorded(DownloadOperation(w, channel, manifest, op).world, op)
  {
    DownloadInAnyState(w, channel, manifest, op);
    DownloadHasShape(w, channel, manifest, op);
    ScanChangesTheIndexOnly(w.peer);
    hide DownloadOperation, Scan, Sound, Remaining, Gains;
  }

  lemma PutArrives(w: World, channel: Channel, op: Operation, size: Size, hash: Digest)
    requires channel.aead.Correct() && PutFile(w, channel, op, size, hash).result.Ok?
    ensures var v := PutFile(w, channel, op, size, hash).world;
      && op.path in w.local.disk && op.path in v.peer.disk && v.local.disk == w.local.disk
      && v.peer.disk[op.path] == w.local.disk[op.path]
      && Blake3(w.local.disk[op.path]) == hash && |w.local.disk[op.path]| == size
  {
    hide ServePut, Encrypt, Remaining;
    var nonce := channel.prefix(op.id, op.retryCount);
    var context := FileCipherContext("upload", op.path, channel.text(hash), size);
    var content := w.local.disk[op.path];
    EncryptedIsWhole(Cipher(channel.aead, nonce), context, content);
    var file := Encrypt(Cipher(channel.aead, nonce), context, content);
    PutExact(w.peer, channel, op.path, size, hash, nonce, file.value.ciphertext, content);
  }

  lemma UploadArrives(w: World, channel: Channel, manifest: Manifest, op: Operation)
    requires channel.aead.Correct() && op.kind != Download
    requires UploadOperation(w, channel, manifest, op).result.Ok?
    ensures EqualAsRecorded(UploadOperation(w, channel, manifest, op).world, op)
  {
    hide ClearTarget, PutFile, Scan;
    var file := CheckLocal(w.local, op).value;
    match RemoteTarget(manifest, op.path)
    case None =>
      PutArrives(w, channel, op, file.size, file.hash.value);
    case Some(target) =>
      ClearHasShape(w, op, target);
      PutArrives(ClearTarget(w, op, target).world, channel, op, file.size, file.hash.value);
  }

  lemma SuccessMeansEqual(w: World, channel: Channel, manifest: Manifest, op: Operation)
    requires Sound(w.peer) && channel.aead.Correct() && ExecuteOne(w, channel, manifest, op).result.Ok?
    ensures EqualAsRecorded(ExecuteOne(w, channel, manifest, op).world, op)
  {
    hide DownloadOperation, UploadOperation, Sound, EqualAsRecorded, MarkStarted;
    var started := w.WithOperations(MarkStarted(w.Operations(), op.id));
    if op.kind == Download {
      DownloadArrives(started, channel, manifest, op);
    } else {
      UploadArrives(started, channel, manifest, op);
    }
  }

  /** When an operation is marked done, both devices hold the same bytes at its path, with
      the hash and size it recorded of the source; otherwise it is marked failed. */
  lemma DoneMeansEqual(w: World, channel: Channel, manifest: Manifest, op: Operation, i: nat)
    requires Sound(w.peer) && channel.aead.Correct()
    ensures var o := ExecuteOne(w, channel, manifest, op).world;
      && |o.Operations()| == |w.Operations()|
      && (i < |w.Operations()| && w.Operations()[i].id == op.id ==>
            && (o.Operations()[i].status == Done || o.Operations()[i].status == Failed)
            && (o.Operations()[i].status == Done ==> EqualAsRecorded(o, op)))
  {
    hide ExecuteOne, Sound, Effect, EqualAsRecorded;
    ExecuteHasEffect(w, channel, manifest, op);
    if ExecuteOne(w, channel, manifest, op).result.Ok? {
      SuccessMeansEqual(w, channel, manifest, op);
    }
  }

  // ------------------------------------------------------------------
  // In a run
  // ------------------------------------------------------------------

  /** Where the invariant holds, as it does in every state that moves lead to: when a job
      executes its next operation and the row of it is done afterwards, both devices hold
      the same bytes at that moment. */
  lemma DoneMeansEqualInAnyJob(s: System, channel: Channel, j: nat, now: nat, limit: U64, i: nat)
    requires Inv(s) && channel.aead.Correct() && j < |s.jobs|
    requires s.jobs[j].stage.Running? && s.jobs[j].stage.todo != []
    ensures var here, op := s.jobs[j].byLocal, s.jobs[j].stage.todo[0];
      var before, after := Turn(s.world, here), Turn(Make(s, channel, Advance(j, now, limit)).world, here);
      && |after.Operations()| == |before.Operations()|
      && (i < |before.Operations()| && before.Operations()[i].id == op.id ==>
            && (after.Operations()[i].status == Done || after.Operations()[i].status == Failed)
            && (after.Operations()[i].status == Done ==> EqualAsRecorded(after, op)))
  {
    hide ExecuteOne, EqualAsRecorded, QueueMachine.Inv, JobInv, Sound;
    var stage, w := s.jobs[j].stage, Turn(s.world, s.jobs[j].byLocal);
    DoneMeansEqual(w, channel, stage.manifest, stage.todo[0], i);
    TurnTwice(ExecuteOne(w, channel, stage.manifest, stage.todo[0]).world, s.jobs[j].byLocal);
  }

  /** In every queue run, when the k-th listed operation is marked done, at that
      moment both devices hold the same bytes at its path, with the hash and size
      it recorded of the source; whatever the indexes held before the run. */
  lemma DoneMeansEqualInARun(w: World, channel: Channel, limit: U64, k: nat, i: nat)
    requires Sound(w.local) && Sound(w.peer) && QueueMachine.Inv(QueueOf(w.local))
    requires channel.aead.Correct() && k < |RunList(ScanBoth(w), limit)|
    ensures var s, ops := ScanBoth(w), RunList(ScanBoth(w), limit);
      var before := ExecuteFirst(s, channel, ManifestOf(s.peer), ops, k).world;
      var after := ExecuteFirst(s, channel, ManifestOf(s.peer), ops, k + 1).world;
      && |after.Operations()| == |before.Operations()|
      && (i < |before.Operations()| && before.Operations()[i].id == ops[k].id ==>
            && (after.Operations()[i].status == Done || after.Operations()[i].status == Failed)
            && (after.Operations()[i].status == Done ==> EqualAsRecorded(after, ops[k])))
  {
    hide ExecuteOne, RunList, QueueMachine.Inv, Scan, Agrees, Sound, LawfulTransfers, EqualAsRecorded,
      LostOnlyByConsent;
    ScanAgrees(w.local);
    ScanAgrees(w.peer);
    ScanChangesTheIndexOnly(w.local);
    var s, ops := ScanBoth(w), RunList(ScanBoth(w), limit);
    RunListIsLawful(s, limit);
    BatchGuarantees(s, channel, ManifestOf(s.peer), ops, k);
    var before := ExecuteFirst(s, channel, ManifestOf(s.peer), ops, k).world;
    AgreesIsSound(before.peer);
    DoneMeansEqual(before, channel, ManifestOf(s.peer), ops[k], i);
  }
}
