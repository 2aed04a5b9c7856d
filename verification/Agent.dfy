/** The agent at work: a folder with its database, the handlers it serves and the
    executor that drives a peer, as methods that update both in place. Each is
    proved against the value it makes of the two devices. */
module Agent {
  import opened Wrappers
  import opened Domain
  import opened StateTables
  import opened StateDb
  import opened Devices
  import opened PeerCrypto
  import opened PeerServer
  import opened SyncEngine
  import Ordering
  import Planning

  /** The part of the files on disk that a walk has seen. */
  function Seen(disk: map<Path, Content>, seen: set<Path>): map<Path, Content> {
    map p | p in seen && p in disk :: disk[p]
  }

  lemma SeenGrows(t: Tables, disk: map<Path, Content>, seen: set<Path>, p: Path, device: DeviceId)
    requires p in disk
    ensures UpsertAll(t, Seen(disk, seen + {p}), device)
         == Upsert(UpsertAll(t, Seen(disk, seen), device), p, Scanned(disk[p], device))
  {
    hide UpsertAll;
    assert Seen(disk, seen + {p}) == Seen(disk, seen)[p := disk[p]];
    UpsertOneMore(t, Seen(disk, seen), p, disk[p], device);
  }

  lemma SeenNothing(t: Tables, disk: map<Path, Content>, device: DeviceId)
    ensures UpsertAll(t, Seen(disk, {}), device) == t
  {
    hide UpsertAll;
    assert Seen(disk, {}) == map[];
    UpsertOneMore(t, map[], "", [], device);
  }

  lemma SeenAll(disk: map<Path, Content>)
    ensures Seen(disk, disk.Keys) == disk
  {
  }

  class Folder {
    const id: DeviceId
    const mode: FolderMode
    const maxBytes: nat
    const db: StateDatabase
    var disk: map<Path, Content>

    function View(): Device
      reads this, db
    {
      Device(id, mode, maxBytes, disk, db.View())
    }

    constructor (id: DeviceId, mode: FolderMode, maxBytes: nat)
      ensures View() == Device(id, mode, maxBytes, map[], EmptyTables)
      ensures fresh(db)
    {
      this.id, this.mode, this.maxBytes := id, mode, maxBytes;
      disk := map[];
      db := new StateDatabase();
    }

    /** The flat view of the scan that every handler starts with. */
    method ScanFolder()
      modifies db
      ensures View() == Scan(old(View()))
    {
      hide UpsertAll, Upsert, Seen, StateTables.MarkScanStarted, StateTables.FinalizeScan;
      db.MarkScanStarted();
      ghost var started := db.View();
      var rest := disk.Keys;
      ghost var seen: set<Path> := {};
      SeenNothing(started, disk, id);
      while rest != {}
        invariant seen !! rest && seen + rest == disk.Keys
        invariant db.View() == UpsertAll(started, Seen(disk, seen), id)
        decreases |rest|
      {
        var path := Ordering.Least(rest);
        var content := disk[path];
        SeenGrows(started, disk, seen, path, id);
        var _ := db.UpsertFile(path, FileEntry(File, |content|, Some(Blake3(content)), 1, id));
        rest, seen := rest - {path}, seen + {path};
      }
      SeenAll(disk);
      db.FinalizeScan();
    }

    method RemainingBytes() returns (bytes: nat)
      ensures bytes == Remaining(View())
    {
      var status := db.Status();
      bytes := SaturatingSub(maxBytes, status.indexedBytes);
    }

    /** Moves a finished file to its place and indexes it. */
    method Publish(path: Path, content: Content, entry: FileEntry)
      requires entry.size <= I64_MAX && entry.generation <= I64_MAX
      modifies this, db
      ensures View() == old(View()).WithFile(path, content,
                Available(entry.kind, entry.size, entry.hash, entry.generation, entry.device))
    {
      disk := disk[path := content];
      var _ := db.UpsertFile(path, entry);
    }

    method ExportManifest() returns (manifest: Manifest)
      modifies db
      ensures View() == Scan(old(View())) && manifest == ManifestOf(View())
    {
      ScanFolder();
      manifest := Manifest(id, db.files);
    }

    method GetFile(channel: Channel, path: Path, prefix: NoncePrefix) returns (r: Result<FileResponse, ServerError>)
      modifies db
      ensures View() == ServeGet(old(View()), channel, path, prefix).device
      ensures r == ServeGet(old(View()), channel, path, prefix).result
    {
      ScanFolder();
      var shared := SharedFile(View(), path);
      if shared.Err? {
        return Err(shared.error);
      }
      var (size, hash) := shared.value;
      if path !in disk {
        return Err(ServerFilesystem);
      }
      var context := FileCipherContext("download", path, channel.text(hash), size);
      var encrypted := EncryptFile(Cipher(channel.aead, prefix), context, disk[path]);
      match encrypted
      case Err(error) => r := Err(ServerCipher(error));
      case Ok(file) => r := Ok(FileResponse(prefix, hash, file.size, file.ciphertext));
    }

    method PutFile(channel: Channel, path: Path, size: U64, hash: Digest, nonce: NoncePrefix, body: Bytes)
      returns (r: Result<Ack, ServerError>)
      modifies this, db
      ensures View() == ServePut(old(View()), channel, path, size, hash, nonce, body).device
      ensures r == ServePut(old(View()), channel, path, size, hash, nonce, body).result
    {
      if |body| != EncryptedLen(size) {
        return Err(InvalidRequest);
      }
      var context := FileCipherContext("upload", path, channel.text(hash), size);
      var decrypted := DecryptFile(Cipher(channel.aead, nonce), context, body);
      if decrypted.Err? {
        return Err(ServerCipher(decrypted.error));
      }
      var plain := decrypted.value;
      if Blake3(plain) != hash {
        return Err(ContentHashMismatch);
      }
      var remaining := RemainingBytes();
      if size > remaining {
        return Err(PeerLimitExceeded);
      }
      if path in disk {
        return Err(ServerConflict);
      }
      if |plain| > I64_MAX || size > I64_MAX {
        return Err(ServerFilesystem);
      }
      Publish(path, plain, FileEntry(File, size, Some(hash), 1, id));
      r := Ok(Ack(true, path, size, hash));
    }

    method DeleteShared(path: Path, size: U64, hash: Digest) returns (r: Result<Ack, ServerError>)
      modifies this, db
      ensures View() == ServeDelete(old(View()), path, size, hash).device
      ensures r == ServeDelete(old(View()), path, size, hash).result
    {
      ScanFolder();
      if path !in db.files {
        return Err(NotFound);
      }
      var file := db.files[path];
      if file.kind != File || file.state != LocalAvailable {
        return Err(NotFound);
      }
      if file.size != size || file.hash != Some(hash) {
        return Err(ServerConflict);
      }
      if path !in disk {
        return Err(ServerFilesystem);
      }
      disk := disk - {path};
      db.ForgetFile(path);
      r := Ok(Ack(true, path, size, hash));
    }
  }

  function WorldOf(local: Folder, peer: Folder): World
    reads local, local.db, peer, peer.db
  {
    World(local.View(), peer.View())
  }

  predicate Apart(local: Folder, peer: Folder) {
    local != peer && local.db != peer.db
  }

  method FetchFile(peer: Folder, channel: Channel, path: Path, size: Size, prefix: NoncePrefix)
    returns (r: Result<Bytes, TransferError>)
    modifies peer.db
    ensures peer.View() == SyncEngine.FetchFile(old(peer.View()), channel, path, size, prefix).peer
    ensures r == SyncEngine.FetchFile(old(peer.View()), channel, path, size, prefix).result
  {
    var served := peer.GetFile(channel, path, prefix);
    if served.Err? {
      return Err(PeerStatus(served.error));
    }
    var response := served.value;
    if response.contentLength != EncryptedLen(size) {
      return Err(UnexpectedContentLength);
    }
    var context := FileCipherContext("download", path, channel.text(response.hash), size);
    var decrypted := DecryptFile(Cipher(channel.aead, response.nonce), context, response.body);
    match decrypted
    case Err(error) => r := Err(PeerCipher(error));
    case Ok(plain) => r := Ok(plain);
  }

  /** Fetches, checks, removes the file that may be replaced, and publishes. */
  method FetchAndPublish(
    local: Folder, peer: Folder, channel: Channel, op: Operation, remote: FileRecord, replaceExisting: bool)
    returns (r: Result<nat, TransferError>)
    requires Apart(local, peer)
    modifies local, local.db, peer.db
    ensures WorldOf(local, peer) == SyncEngine.FetchAndPublish(old(WorldOf(local, peer)), channel, op, remote).world
    ensures r == SyncEngine.FetchAndPublish(old(WorldOf(local, peer)), channel, op, remote).result
  {
    hide SyncEngine.FetchFile, Upsert, SetStatus;
    var fetched := FetchFile(peer, channel, op.path, remote.size, channel.prefix(op.id, op.retryCount));
    if fetched.Err? {
      return Err(fetched.error);
    }
    var plain := fetched.value;
    if |plain| != remote.size {
      return Err(SizeMismatch);
    }
    if Some(Blake3(plain)) != remote.hash {
      return Err(HashMismatch);
    }
    ghost var before := local.disk;
    if replaceExisting {
      local.disk := local.disk - {op.path};
    }
    assert local.disk[op.path := plain] == before[op.path := plain];
    local.Publish(op.path, plain, FileEntry(File, remote.size, Some(Blake3(plain)), remote.generation, local.id));
    ghost var rows := local.db.operations;
    local.db.MarkDone(op.id);
    OutcomeIsSetStatus(rows, local.db.operations, op.id, Done, None);
    r := Ok(remote.size);
  }

  method DownloadOperation(local: Folder, peer: Folder, channel: Channel, manifest: Manifest, op: Operation)
    returns (r: Result<nat, TransferError>)
    requires Apart(local, peer)
    modifies local, local.db, peer.db
    ensures WorldOf(local, peer) == SyncEngine.DownloadOperation(old(WorldOf(local, peer)), channel, manifest, op).world
    ensures r == SyncEngine.DownloadOperation(old(WorldOf(local, peer)), channel, manifest, op).result
  {
    hide SyncEngine.FetchAndPublish, IndexedBytes, CheckRemote;
    var checked := CheckRemote(manifest, op);
    if checked.Err? {
      return Err(checked.error);
    }
    var remote := checked.value;
    var remaining := local.RemainingBytes();
    if remote.size > remaining {
      var _ := local.db.RecordSkippedFolderLimit(op.path, remote.size);
      return Err(FolderLimitExceeded);
    }
    var targetExists := op.path in local.disk;
    var replaceExisting := targetExists && MayReplace(local.View(), op);
    if targetExists && !replaceExisting {
      return Err(LocalTargetExists);
    }
    r := FetchAndPublish(local, peer, channel, op, remote, replaceExisting);
  }

  method PutLocalFile(local: Folder, peer: Folder, channel: Channel, op: Operation, size: Size, hash: Digest)
    returns (r: Result<nat, TransferError>)
    requires Apart(local, peer)
    modifies local.db, peer, peer.db
    ensures WorldOf(local, peer) == SyncEngine.PutFile(old(WorldOf(local, peer)), channel, op, size, hash).world
    ensures r == SyncEngine.PutFile(old(WorldOf(local, peer)), channel, op, size, hash).result
  {
    hide ServePut, SetStatus, Encrypt;
    if op.path !in local.disk {
      return Err(LocalFilesystem);
    }
    var nonce := channel.prefix(op.id, op.retryCount);
    var context := FileCipherContext("upload", op.path, channel.text(hash), size);
    var encrypted := EncryptFile(Cipher(channel.aead, nonce), context, local.disk[op.path]);
    if encrypted.Err? {
      return Err(PeerCipher(encrypted.error));
    }
    if encrypted.value.digest != hash {
      return Err(PlaintextHashMismatch);
    }
    var response := peer.PutFile(channel, op.path, size, hash, nonce, encrypted.value.ciphertext);
    if response.Err? {
      return Err(PeerStatus(response.error));
    }
    var ack := response.value;
    if !ack.accepted || ack.path != op.path || ack.size != size || ack.hash != hash {
      return Err(UploadRejected);
    }
    ghost var rows := local.db.operations;
    local.db.MarkDone(op.id);
    OutcomeIsSetStatus(rows, local.db.operations, op.id, Done, None);
    r := Ok(size);
  }

  method ClearRemoteTarget(local: Folder, peer: Folder, op: Operation, target: FileRecord)
    returns (r: Result<nat, TransferError>)
    requires Apart(local, peer)
    modifies peer, peer.db
    ensures WorldOf(local, peer) == ClearTarget(old(WorldOf(local, peer)), op, target).world
    ensures r == ClearTarget(old(WorldOf(local, peer)), op, target).result
  {
    hide ServeDelete;
    if op.remoteHash != target.hash || op.remoteSize != Some(target.size) {
      return Err(RemoteTargetExists);
    }
    if target.hash.None? {
      return Err(RemoteHashMissing);
    }
    var response := peer.DeleteShared(op.path, target.size, target.hash.value);
    if response.Err? {
      return Err(PeerStatus(response.error));
    }
    var ack := response.value;
    if !ack.accepted || ack.path != op.path || ack.size != target.size || ack.hash != target.hash.value {
      return Err(RemoteDeleteRejected);
    }
    r := Ok(0);
  }

  method UploadOperation(local: Folder, peer: Folder, channel: Channel, manifest: Manifest, op: Operation)
    returns (r: Result<nat, TransferError>)
    requires Apart(local, peer)
    modifies local.db, peer, peer.db
    ensures WorldOf(local, peer) == SyncEngine.UploadOperation(old(WorldOf(local, peer)), channel, manifest, op).world
    ensures r == SyncEngine.UploadOperation(old(WorldOf(local, peer)), channel, manifest, op).result
  {
    hide SyncEngine.PutFile, ClearTarget;
    var target := RemoteTarget(manifest, op.path);
    var checked := CheckLocal(local.View(), op);
    if checked.Err? {
      return Err(checked.error);
    }
    var file := checked.value;
    if target.Some? {
      var cleared := ClearRemoteTarget(local, peer, op, target.value);
      if cleared.Err? {
        return cleared;
      }
    }
    r := PutLocalFile(local, peer, channel, op, file.size, file.hash.value);
  }

  /** Runs one listed operation and records its outcome on the row. */
  method ExecuteOperation(local: Folder, peer: Folder, channel: Channel, manifest: Manifest, op: Operation)
    returns (r: Result<nat, TransferError>)
    requires Apart(local, peer)
    modifies local, local.db, peer, peer.db
    ensures WorldOf(local, peer) == ExecuteOne(old(WorldOf(local, peer)), channel, manifest, op).world
    ensures r == ExecuteOne(old(WorldOf(local, peer)), channel, manifest, op).result
  {
    hide SyncEngine.DownloadOperation, SyncEngine.UploadOperation, StateTables.MarkStarted, SetStatus;
    ghost var rows := local.db.operations;
    local.db.MarkStarted(op.id);
    StartIsMarkStarted(rows, local.db.operations, op.id);
    if op.kind == Download {
      r := DownloadOperation(local, peer, channel, manifest, op);
    } else {
      r := UploadOperation(local, peer, channel, manifest, op);
    }
    if r.Err? {
      rows := local.db.operations;
      local.db.MarkFailed(op.id, r.error);
      OutcomeIsSetStatus(rows, local.db.operations, op.id, Failed, Some(r.error));
    }
  }

  /** Scans, lists the pending operations, and executes them one after another:
      the downloads first, then as many uploads as the limit leaves room for. */
  method RunQueue(local: Folder, peer: Folder, channel: Channel, limit: U64)
    returns (r: Result<(nat, nat), CoreError>)
    requires Apart(local, peer)
    modifies local, local.db, peer, peer.db
    ensures WorldOf(local, peer) == RunSyncQueue(old(WorldOf(local, peer)), channel, limit).world
    ensures r == RunSyncQueue(old(WorldOf(local, peer)), channel, limit).result
  {
    hide ExecuteOne, ListPending, Scan;
    local.ScanFolder();
    var manifest := peer.ExportManifest();
    ghost var scanned := WorldOf(local, peer);
    var downloads := local.db.ListPendingOperations(manifest.device, Download, limit);
    if downloads.Err? {
      return Err(downloads.error);
    }
    var left: U64 := SaturatingSub(limit, |downloads.value|);
    var uploads := local.db.ListPendingOperations(manifest.device, Upload, left);
    if uploads.Err? {
      return Err(uploads.error);
    }
    ghost var ops := downloads.value + uploads.value;
    assert ops == RunList(scanned, limit);
    var completed, failed := 0, 0;
    for i := 0 to |downloads.value|
      invariant Batch(WorldOf(local, peer), completed, failed) == ExecuteFirst(scanned, channel, manifest, ops, i)
    {
      assert ops[i] == downloads.value[i];
      var outcome := ExecuteOperation(local, peer, channel, manifest, downloads.value[i]);
      if outcome.Ok? {
        completed := completed + 1;
      } else {
        failed := failed + 1;
      }
    }
    for i := 0 to |uploads.value|
      invariant Batch(WorldOf(local, peer), completed, failed)
             == ExecuteFirst(scanned, channel, manifest, ops, |downloads.value| + i)
    {
      assert ops[|downloads.value| + i] == uploads.value[i];
      var outcome := ExecuteOperation(local, peer, channel, manifest, uploads.value[i]);
      if outcome.Ok? {
        completed := completed + 1;
      } else {
        failed := failed + 1;
      }
    }
    r := Ok((completed, failed));
  }

  /** `build_sync_plan` and `enqueue_sync_plan`. */
  method PlanAndEnqueue(local: Folder, peer: Folder, now: nat) returns (r: Result<(nat, nat), CoreError>)
    requires Apart(local, peer)
    modifies local.db, peer.db
    ensures WorldOf(local, peer) == EnqueuePlan(old(WorldOf(local, peer)), now).world
    ensures r == EnqueuePlan(old(WorldOf(local, peer)), now).result
  {
    hide Planning.Plan, Scan, Storable, PlanRows, Kept;
    var localManifest := local.ExportManifest();
    var remoteManifest := peer.ExportManifest();
    var plan := Planning.PlanManifestSyncForMode(localManifest, remoteManifest, local.mode);
    var queued := local.db.EnqueueSyncPlan(plan, now);
    match queued
    case Err(error) => r := Err(error);
    case Ok(_) => r := Ok((0, 0));
  }

  method RunOnce(local: Folder, peer: Folder, channel: Channel, limit: U64, now: nat)
    returns (r: Result<(nat, nat), CoreError>)
    requires Apart(local, peer)
    modifies local, local.db, peer, peer.db
    ensures WorldOf(local, peer) == RunSyncOnce(old(WorldOf(local, peer)), channel, limit, now).world
    ensures r == RunSyncOnce(old(WorldOf(local, peer)), channel, limit, now).result
  {
    hide EnqueuePlan, RunSyncQueue;
    r := PlanAndEnqueue(local, peer, now);
    if r.Ok? {
      r := RunQueue(local, peer, channel, limit);
    }
  }

  method DeleteFile(local: Folder, peer: Folder, path: Path, scope: DeleteScope) returns (r: Result<nat, TransferError>)
    requires Apart(local, peer)
    modifies local, local.db, peer, peer.db
    ensures WorldOf(local, peer) == SyncEngine.DeleteFile(old(WorldOf(local, peer)), path, scope).world
    ensures r == SyncEngine.DeleteFile(old(WorldOf(local, peer)), path, scope).result
  {
    hide ServeDelete, MarkDeletedLocally, Forget;
    if path !in local.db.files {
      return Err(LocalFileMissing);
    }
    var existing := local.db.files[path];
    ghost var before := local.disk;
    if path in local.disk {
      local.disk := local.disk - {path};
    }
    assert local.disk == before - {path};
    match scope
    case LocalOnly =>
      local.db.MarkFileDeletedLocally(path);
      r := Ok(0);
    case PropagateToPeers(peerGiven) =>
      if !peerGiven {
        return Err(MissingPeerConfig);
      }
      if existing.hash.None? {
        return Err(LocalHashMissing);
      }
      var response := peer.DeleteShared(path, existing.size, existing.hash.value);
      if response.Err? {
        return Err(PeerStatus(response.error));
      }
      var ack := response.value;
      if !ack.accepted || ack.path != path || ack.size != existing.size || ack.hash != existing.hash.value {
        return Err(UploadRejected);
      }
      local.db.ForgetFile(path);
      r := Ok(0);
  }
}
