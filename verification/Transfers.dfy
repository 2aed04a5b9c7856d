/** What one executed operation does to the two devices. */
module Transfers {
  import opened Wrappers
  import opened Domain
  import opened StateTables
  import opened Devices
  import opened PeerCrypto
  import opened PeerServer
  import opened SyncEngine
  import Sums

  /** A download gets exactly the peer's file, and only when it has the promised size. */
  lemma FetchExact(peer: Device, channel: Channel, path: Path, size: Size, prefix: NoncePrefix)
    requires Sound(peer) && channel.aead.Correct()
    ensures var f := FetchFile(peer, channel, path, size, prefix);
      && f.peer == Scan(peer)
      && (f.result.Ok? <==> path in peer.disk && |peer.disk[path]| == size)
      && (f.result.Ok? ==> f.result.value == peer.disk[path])
  {
    ScanAgrees(peer);
    if path in peer.disk {
      var content := peer.disk[path];
      var hash := Blake3(content);
      FilesNeverSaturate(|content|);
      LengthAdmitsOneSize(|content|, size);
      RoundTrip(Cipher(channel.aead, prefix),
                FileCipherContext("download", path, channel.text(hash), |content|), content);
    }
  }

  /** An announced length that is not that of the promised size is refused as such. */
  lemma WrongLengthIsRefused(peer: Device, channel: Channel, path: Path, size: Size, prefix: NoncePrefix)
    requires Sound(peer) && path in peer.disk && |peer.disk[path]| != size
    ensures FetchFile(peer, channel, path, size, prefix).result == Err(UnexpectedContentLength)
  {
    GetExact(peer, channel, path, prefix);
    FilesNeverSaturate(|peer.disk[path]|);
    LengthAdmitsOneSize(|peer.disk[path]|, size);
  }

  /** Both indexes agree with their disks. */
  ghost predicate InStep(w: World) {
    Agrees(w.local) && Agrees(w.peer)
  }

  /** Same settings, same disk, same index; only the queue and the skip list may differ. */
  predicate SameFolder(a: Device, b: Device) {
    && a.id == b.id && a.mode == b.mode && a.maxBytes == b.maxBytes && a.disk == b.disk
    && a.tables.files == b.tables.files && a.tables.scanMissing == b.tables.scanMissing
  }

  lemma SameFolderFacts(a: Device, b: Device)
    requires SameFolder(a, b)
    ensures Agrees(a) == Agrees(b) && IndexedBytes(a) == IndexedBytes(b)
  {
  }

  /** The file an operation replaces or removes is the one it recorded. */
  predicate Matches(hash: Option<Digest>, size: Option<nat>, content: Content) {
    hash == Some(Blake3(content)) && size == Some(|content|)
  }

  /** The local device once it holds the peer's file at the operation's path. */
  function Downloaded(w: World, op: Operation, remote: FileRecord): Device
    requires op.path in w.peer.disk
  {
    var content := w.peer.disk[op.path];
    w.local.WithFile(op.path, content,
                     Available(File, remote.size, Some(Blake3(content)), remote.generation, w.local.id))
           .WithOperations(SetStatus(w.Operations(), op.id, Done, None))
  }

  lemma DownloadedAgrees(w: World, op: Operation, remote: FileRecord)
    requires InStep(w) && op.path in w.peer.disk && Describes(remote, w.peer.disk[op.path])
    ensures Agrees(Downloaded(w, op, remote))
  {
    var content := w.peer.disk[op.path];
    var record := Available(File, remote.size, Some(Blake3(content)), remote.generation, w.local.id);
    WriteAgrees(w.local, op.path, content, record);
    SameFolderFacts(w.local.WithFile(op.path, content, record), Downloaded(w, op, remote));
  }

  lemma FetchAndPublishFacts(w: World, channel: Channel, op: Operation, remote: FileRecord)
    requires InStep(w) && channel.aead.Correct()
    ensures var o := FetchAndPublish(w, channel, op, remote);
      && o.world.peer == Scan(w.peer)
      && (o.result.Ok? <==> op.path in w.peer.disk && |w.peer.disk[op.path]| == remote.size
                              && remote.hash == Some(Blake3(w.peer.disk[op.path])))
      && (o.result.Err? ==> o.world.local == w.local)
      && (o.result.Ok? ==> o.result.value == remote.size && o.world.local == Downloaded(w, op, remote))
  {
    FetchExact(w.peer, channel, op.path, remote.size, channel.prefix(op.id, op.retryCount));
  }

  /** A record still is what the operation recorded of its source: a file with a known
      hash, and with the recorded hash and size as far as they were recorded. */
  predicate IsUnchanged(files: map<Path, FileRecord>, path: Path, hash: Option<Digest>, size: Option<nat>) {
    && path in files && files[path].kind == File && files[path].hash != None
    && (hash == None || hash == files[path].hash)
    && (size == None || size == Some(files[path].size))
  }

  /** The checks of either source accept exactly an unchanged record, and tell a missing
      one, one that is no file and one without a hash from a changed one. */
  lemma SourceChecksExact(local: Device, manifest: Manifest, op: Operation)
    ensures var r := CheckRemote(manifest, op);
      && (r.Ok? <==> IsUnchanged(manifest.files, op.path, op.remoteHash, op.remoteSize))
      && (r.Ok? ==> r.value == manifest.files[op.path])
      && (r == Err(RemoteFileMissing) <==> op.path !in manifest.files)
      && (r == Err(RemotePathIsNotFile) <==> op.path in manifest.files && manifest.files[op.path].kind != File)
      && (r == Err(RemoteHashMissing) ==> op.remoteHash == None && manifest.files[op.path].hash == None)
      && (r.Err? ==> r.error in {RemoteFileMissing, RemotePathIsNotFile, RemoteHashMissing, RemoteFileChanged})
    ensures var l := CheckLocal(local, op);
      && (l.Ok? <==> IsUnchanged(local.tables.files, op.path, op.localHash, op.localSize))
      && (l.Ok? ==> l.value == local.tables.files[op.path])
      && (l == Err(LocalFileMissing) <==> op.path !in local.tables.files)
      && (l == Err(LocalPathIsNotFile) <==> op.path in local.tables.files && local.tables.files[op.path].kind != File)
      && (l == Err(LocalHashMissing) ==> op.localHash == None && local.tables.files[op.path].hash == None)
      && (l.Err? ==> l.error in {LocalFileMissing, LocalPathIsNotFile, LocalHashMissing, LocalFileChanged})
  {
  }

  /** A download succeeds exactly when the manifest record passes the checks, the
      file fits, nothing else is in its place, and the peer still has it. */
  ghost predicate DownloadApplies(w: World, manifest: Manifest, op: Operation) {
    && CheckRemote(manifest, op).Ok?
    && var remote := CheckRemote(manifest, op).value;
       && remote.size <= Remaining(w.local)
       && (op.path in w.local.disk ==> Matches(op.localHash, op.localSize, w.local.disk[op.path]))
       && op.path in w.peer.disk && Describes(remote, w.peer.disk[op.path])
  }

  /** A download that does not fit is put on the skip list; any other failure leaves
      the device as it was. */
  ghost function SkippedIfFull(d: Device, manifest: Manifest, op: Operation): Device {
    match CheckRemote(manifest, op)
    case Err(_) => d
    case Ok(remote) =>
      if remote.size <= Remaining(d) then d
      else d.(tables := d.tables.(skipped := d.tables.skipped[op.path := remote.size]))
  }

  lemma ReplacesTheRecordedFile(d: Device, op: Operation)
    requires Agrees(d) && op.path in d.disk
    ensures MayReplace(d, op) <==> Matches(op.localHash, op.localSize, d.disk[op.path])
  {
  }

  lemma DownloadFacts(w: World, channel: Channel, manifest: Manifest, op: Operation)
    requires InStep(w) && channel.aead.Correct()
    ensures var o := DownloadOperation(w, channel, manifest, op);
      && (o.world.peer == w.peer || o.world.peer == Scan(w.peer))
      && (o.result.Ok? <==> DownloadApplies(w, manifest, op))
      && (o.result.Err? ==> o.world.local == SkippedIfFull(w.local, manifest, op))
      && (o.result.Ok? ==>
            var remote := CheckRemote(manifest, op).value;
            o.result.value == remote.size && o.world.local == Downloaded(w, op, remote))
  {
    match CheckRemote(manifest, op)
    case Err(_) =>
    case Ok(remote) =>
      if op.path in w.local.disk {
        ReplacesTheRecordedFile(w.local, op);
      }
      if remote.size <= Remaining(w.local) && (op.path in w.local.disk ==> MayReplace(w.local, op)) {
        FetchAndPublishFacts(w, channel, op, remote);
      }
  }

  // ------------------------------------------------------------------
  // Uploads
  // ------------------------------------------------------------------

  /** The peer once it holds the local file at the operation's path. */
  function Uploaded(peer: Device, path: Path, content: Content): Device {
    peer.WithFile(path, content, Available(File, |content|, Some(Blake3(content)), 1, peer.id))
  }

  lemma PutFacts(w: World, channel: Channel, op: Operation, size: Size, hash: Digest)
    requires channel.aead.Correct()
    ensures var o := PutFile(w, channel, op, size, hash);
      && (o.result.Ok? <==>
            && op.path in w.local.disk && |w.local.disk[op.path]| == size && Blake3(w.local.disk[op.path]) == hash
            && size <= Remaining(w.peer) && op.path !in w.peer.disk)
      && (o.result.Err? ==> o.world == w)
      && (o.result.Ok? ==> o.result.value == size
                           && o.world == Finished(World(w.local, Uploaded(w.peer, op.path, w.local.disk[op.path])), op))
  {
    if op.path in w.local.disk && |w.local.disk[op.path]| == size {
      var content := w.local.disk[op.path];
      var nonce := channel.prefix(op.id, op.retryCount);
      var context := FileCipherContext("upload", op.path, channel.text(hash), size);
      var file := Encrypt(Cipher(channel.aead, nonce), context, content).value;
      PutExact(w.peer, channel, op.path, size, hash, nonce, file.ciphertext, content);
    }
  }

  function Removed(d: Device, path: Path): Device {
    d.(disk := d.disk - {path}, tables := Forget(d.tables, path))
  }

  /** The peer once a DELETE of `path` succeeded. */
  function Cleared(peer: Device, path: Path): Device {
    Removed(Scan(peer), path)
  }

  lemma RemovedFacts(d: Device, path: Path)
    requires Agrees(d) && path in d.disk
    ensures Agrees(Removed(d, path))
    ensures IndexedBytes(Removed(d, path)) + |d.disk[path]| == IndexedBytes(d)
  {
    Sums.SumWithout(Sizes(d.tables.files), path);
    assert Sizes(Removed(d, path).tables.files) == Sizes(d.tables.files) - {path};
  }

  lemma ClearedFacts(peer: Device, path: Path)
    requires Agrees(peer) && path in peer.disk
    ensures Agrees(Cleared(peer, path))
    ensures IndexedBytes(Cleared(peer, path)) + |peer.disk[path]| == IndexedBytes(peer)
  {
    RescanKeeps(peer);
    SameIndexSameBytes(Scan(peer), peer);
    RemovedFacts(Scan(peer), path);
  }

  /** The upload reaches the peer's DELETE, and the peer still has the very file
      that the operation recorded. */
  predicate Clears(w: World, manifest: Manifest, op: Operation) {
    && CheckLocal(w.local, op).Ok?
    && RemoteTarget(manifest, op.path).Some?
    && op.remoteHash == RemoteTarget(manifest, op.path).value.hash
    && op.remoteSize == Some(RemoteTarget(manifest, op.path).value.size)
    && op.path in w.peer.disk
    && Matches(op.remoteHash, op.remoteSize, w.peer.disk[op.path])
  }

  lemma ClearTargetFacts(w: World, manifest: Manifest, op: Operation)
    requires InStep(w) && CheckLocal(w.local, op).Ok? && RemoteTarget(manifest, op.path).Some?
    ensures var o := ClearTarget(w, op, RemoteTarget(manifest, op.path).value);
      && (o.result.Ok? <==> Clears(w, manifest, op))
      && o.world.local == w.local
      && (o.result.Ok? ==> o.world.peer == Cleared(w.peer, op.path))
      && (o.result.Err? ==> o.world.peer == w.peer || o.world.peer == Scan(w.peer))
  {
    var target := RemoteTarget(manifest, op.path).value;
    if target.hash.Some? {
      DeleteExact(w.peer, op.path, target.size, target.hash.value);
    }
  }

  /** The peer as the PUT finds it. */
  function PutTarget(w: World, manifest: Manifest, op: Operation): Device {
    if Clears(w, manifest, op) then Cleared(w.peer, op.path) else w.peer
  }

  /** An upload succeeds exactly when the local record passes the checks and its
      file is there, and the peer's place is free or freed and roomy enough. */
  ghost predicate UploadApplies(w: World, manifest: Manifest, op: Operation) {
    && CheckLocal(w.local, op).Ok?
    && op.path in w.local.disk
    && |w.local.disk[op.path]| <= Remaining(PutTarget(w, manifest, op))
    && (if RemoteTarget(manifest, op.path).Some? then Clears(w, manifest, op) else op.path !in w.peer.disk)
  }

  lemma UploadFacts(w: World, channel: Channel, manifest: Manifest, op: Operation)
    requires InStep(w) && channel.aead.Correct()
    ensures var o := UploadOperation(w, channel, manifest, op);
      && (o.result.Ok? <==> UploadApplies(w, manifest, op))
      && (o.result.Err? ==>
            && o.world.local == w.local
            && (o.world.peer == PutTarget(w, manifest, op) || o.world.peer == Scan(w.peer))
            && (Clears(w, manifest, op) ==> o.world.peer == Cleared(w.peer, op.path)))
      && (o.result.Ok? ==>
            && o.result.value == |w.local.disk[op.path]|
            && o.world == Finished(World(w.local,
                 Uploaded(PutTarget(w, manifest, op), op.path, w.local.disk[op.path])), op))
  {
    if CheckLocal(w.local, op).Ok? {
      var file := CheckLocal(w.local, op).value;
      assert op.path in w.local.disk ==> Describes(file, w.local.disk[op.path]);
      match RemoteTarget(manifest, op.path)
      case None =>
        PutFacts(w, channel, op, file.size, file.hash.value);
      case Some(target) =>
        ClearTargetFacts(w, manifest, op);
        var cleared := ClearTarget(w, op, target);
        if cleared.result.Ok? {
          PutFacts(cleared.world, channel, op, file.size, file.hash.value);
        }
    }
  }
}
