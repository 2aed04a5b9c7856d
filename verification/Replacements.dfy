/** Resolved operations that replace a file: when they replace the one the user chose
    to give up, and when they put another in its place
    (crates/syncer-agent/src/main.rs:863-1068). */
module Replacements {
  import opened Wrappers
  import opened Domain
  import opened StateTables
  import opened Devices
  import opened PeerCrypto
  import opened PeerServer
  import opened SyncEngine
  import opened Transfers
  import opened Runs
  import QueueMachine

  // ------------------------------------------------------------------
  // Downloads
  // ------------------------------------------------------------------

  /** What has to hold, in any state, for a download to go through. */
  ghost predicate DownloadGoesThrough(w: World, manifest: Manifest, op: Operation) {
    && CheckRemote(manifest, op).Ok?
    && CheckRemote(manifest, op).value.size <= Remaining(w.local)
    && (op.path in w.local.disk ==> MayReplace(w.local, op))
    && op.path in w.peer.disk && Describes(CheckRemote(manifest, op).value, w.peer.disk[op.path])
  }

  /** Whatever the index says of the disk, and however old the manifest is. */
  lemma DownloadInAnyState(w: World, channel: Channel, manifest: Manifest, op: Operation)
    requires Sound(w.peer) && channel.aead.Correct()
    ensures var o := DownloadOperation(w, channel, manifest, op);
      && (o.result.Ok? <==> DownloadGoesThrough(w, manifest, op))
      && o.world.local.disk == if o.result.Ok? then w.local.disk[op.path := w.peer.disk[op.path]] else w.local.disk
  {
    hide FetchFile, Remaining, Sound;
    if CheckRemote(manifest, op).Ok? {
      FetchExact(w.peer, channel, op.path, CheckRemote(manifest, op).value.size, channel.prefix(op.id, op.retryCount));
    }
  }

  /** The index has the size and the hash of the file on disk. */
  predicate RecordIsRight(d: Device, path: Path) {
    && path in d.disk && path in d.tables.files
    && d.tables.files[path].size == |d.disk[path]| && d.tables.files[path].hash == Some(Blake3(d.disk[path]))
  }

  /** A download that replaces a file replaces the one the user agreed to give up if and
      only if the index is right about the file at that moment: what is compared is the
      record, not the file. */
  lemma ReplacedFileIsTheAgreedOne(w: World, channel: Channel, manifest: Manifest, op: Operation)
    requires op.kind == Download && QueueMachine.Lawful(op) && op.path in w.local.disk
    requires ExecuteOne(w, channel, manifest, op).result.Ok?
    ensures Agreed(op, op.path, w.local.disk[op.path]) <==> RecordIsRight(w.local, op.path)
    ensures AgreesAt(w.local, op.path) ==> RecordIsRight(w.local, op.path)
  {
    hide FetchAndPublish, Remaining, SetStatus, MarkStarted;
    var started := w.WithOperations(MarkStarted(w.Operations(), op.id));
    assert MayReplace(started.local, op);
  }

  // ------------------------------------------------------------------
  // Uploads
  // ------------------------------------------------------------------

  /** The local file is there, and fits at the peer once the recorded one is gone. */
  ghost predicate ReplacementFits(w: World, path: Path) {
    && path in w.local.disk && path in w.peer.disk
    && (w.local.disk[path] == []
        || IndexedBytes(w.peer) + |w.local.disk[path]| <= w.peer.maxBytes + |w.peer.disk[path]|)
  }

  /** An upload that removes the peer's file puts the local one in its place if
      and only if the local file is there and fits; otherwise the peer is left
      without the file, and without a local file nobody has it any more. */
  lemma ResolvedUploadReplaces(w: World, channel: Channel, manifest: Manifest, op: Operation)
    requires InStep(w) && channel.aead.Correct() && Clears(w, manifest, op)
    ensures var o := UploadOperation(w, channel, manifest, op);
      && (o.result.Ok? <==> ReplacementFits(w, op.path))
      && (op.path in o.world.peer.disk <==> ReplacementFits(w, op.path))
      && (ReplacementFits(w, op.path) ==> o.world.peer.disk[op.path] == w.local.disk[op.path])
      && (op.path !in w.local.disk ==> op.path !in o.world.local.disk && op.path !in o.world.peer.disk)
  {
    UploadFacts(w, channel, manifest, op);
    ClearedFacts(w.peer, op.path);
    hide UploadOperation, Agrees, Scan;
  }
}
