/** The executor of one device driving the handlers of its peer, as functions of
    the two devices (crates/syncer-agent/src/main.rs). */
module SyncEngine {
  import opened Wrappers
  import opened Domain
  import opened StateTables
  import opened Devices
  import opened PeerCrypto
  import opened PeerServer
  import Planning
  import RelativePaths

  datatype World = World(local: Device, peer: Device) {
    function WithOperations(operations: seq<Operation>): World {
      this.(local := local.WithOperations(operations))
    }

    function Operations(): seq<Operation> {
      local.tables.operations
    }

    function Swap(): World {
      World(peer, local)
    }
  }

  datatype Outcome = Outcome(world: World, result: Result<nat, TransferError>)

  // ------------------------------------------------------------------
  // One download
  // ------------------------------------------------------------------

  datatype Fetched = Fetched(peer: Device, result: Result<Bytes, TransferError>)

  /** GET a file and decrypt it: the announced length must be that of the size
      the manifest promised. */
  function FetchFile(peer: Device, channel: Channel, path: Path, size: Size, prefix: NoncePrefix): Fetched {
    var served := ServeGet(peer, channel, path, prefix);
    match served.result
    case Err(error) => Fetched(served.device, Err(PeerStatus(error)))
    case Ok(response) =>
      if response.contentLength != EncryptedLen(size) then Fetched(served.device, Err(UnexpectedContentLength))
      else
        var context := FileCipherContext("download", path, channel.text(response.hash), size);
        match Decrypt(Cipher(channel.aead, response.nonce), context, response.body)
        case Err(error) => Fetched(served.device, Err(PeerCipher(error)))
        case Ok(plain) => Fetched(served.device, Ok(plain))
  }

  /** An existing target may be replaced only when the index still holds the very
      file the operation was recorded against. */
  predicate MayReplace(local: Device, op: Operation) {
    && op.path in local.disk && op.path in local.tables.files
    && op.localHash == local.tables.files[op.path].hash
    && op.localSize == Some(local.tables.files[op.path].size)
  }

  function ExpectedHash(recorded: Option<Digest>, indexed: Option<Digest>): Option<Digest> {
    if recorded.Some? then recorded else indexed
  }

  function CheckRemote(manifest: Manifest, op: Operation): Result<FileRecord, TransferError> {
    if op.path !in manifest.files then Err(RemoteFileMissing)
    else
      var remote := manifest.files[op.path];
      var expected := ExpectedHash(op.remoteHash, remote.hash);
      if remote.kind != File then Err(RemotePathIsNotFile)
      else if expected.None? then Err(RemoteHashMissing)
      else if remote.hash != expected then Err(RemoteFileChanged)
      else if op.remoteSize.Some? && op.remoteSize.value != remote.size then Err(RemoteFileChanged)
      else Ok(remote)
  }

  function Finished(w: World, op: Operation): World {
    w.WithOperations(SetStatus(w.Operations(), op.id, Done, None))
  }

  /** Fetches into a temporary file, checks it, and publishes it. */
  function FetchAndPublish(w: World, channel: Channel, op: Operation, remote: FileRecord): Outcome {
    var fetched := FetchFile(w.peer, channel, op.path, remote.size, channel.prefix(op.id, op.retryCount));
    var after := w.(peer := fetched.peer);
    match fetched.result
    case Err(error) => Outcome(after, Err(error))
    case Ok(plain) =>
      if |plain| != remote.size then Outcome(after, Err(SizeMismatch))
      else if Some(Blake3(plain)) != remote.hash then Outcome(after, Err(HashMismatch))
      else
        var record := Available(File, remote.size, Some(Blake3(plain)), remote.generation, w.local.id);
        var published := after.(local := w.local.WithFile(op.path, plain, record));
        Outcome(Finished(published, op), Ok(remote.size))
  }

  ghost function DownloadOperation(w: World, channel: Channel, manifest: Manifest, op: Operation): Outcome {
    match CheckRemote(manifest, op)
    case Err(error) => Outcome(w, Err(error))
    case Ok(remote) =>
      if remote.size > Remaining(w.local) then
        var skipped := w.local.(tables := RecordSkipped(w.local.tables, op.path, remote.size));
        Outcome(w.(local := skipped), Err(FolderLimitExceeded))
      else if op.path in w.local.disk && !MayReplace(w.local, op) then
        Outcome(w, Err(LocalTargetExists))
      else
        FetchAndPublish(w, channel, op, remote)
  }

  // ------------------------------------------------------------------
  // One upload
  // ------------------------------------------------------------------

  function CheckLocal(local: Device, op: Operation): Result<FileRecord, TransferError> {
    if op.path !in local.tables.files then Err(LocalFileMissing)
    else
      var file := local.tables.files[op.path];
      var expected := ExpectedHash(op.localHash, file.hash);
      if file.kind != File then Err(LocalPathIsNotFile)
      else if expected.None? then Err(LocalHashMissing)
      else if file.hash != expected then Err(LocalFileChanged)
      else if op.localSize.Some? && op.localSize.value != file.size then Err(LocalFileChanged)
      else Ok(file)
  }

  function RemoteTarget(manifest: Manifest, path: Path): Option<FileRecord> {
    if path in manifest.files && manifest.files[path].state == LocalAvailable then Some(manifest.files[path]) else None
  }

  /** Encrypts the local file and PUTs it. */
  ghost function PutFile(w: World, channel: Channel, op: Operation, size: Size, hash: Digest): Outcome {
    if op.path !in w.local.disk then Outcome(w, Err(LocalFilesystem))
    else
      var nonce := channel.prefix(op.id, op.retryCount);
      var context := FileCipherContext("upload", op.path, channel.text(hash), size);
      match Encrypt(Cipher(channel.aead, nonce), context, w.local.disk[op.path])
      case Err(error) => Outcome(w, Err(PeerCipher(error)))
      case Ok(file) =>
        if file.digest != hash then Outcome(w, Err(PlaintextHashMismatch))
        else
          var served := ServePut(w.peer, channel, op.path, size, hash, nonce, file.ciphertext);
          var after := w.(peer := served.device);
          match served.result
          case Err(error) => Outcome(after, Err(PeerStatus(error)))
          case Ok(ack) =>
            if ack != Ack(true, op.path, size, hash) then Outcome(after, Err(UploadRejected))
            else Outcome(Finished(after, op), Ok(size))
  }

  /** Removes the peer's file when the operation recorded exactly that file. */
  function ClearTarget(w: World, op: Operation, target: FileRecord): Outcome {
    if op.remoteHash != target.hash || op.remoteSize != Some(target.size) then Outcome(w, Err(RemoteTargetExists))
    else match target.hash
      case None => Outcome(w, Err(RemoteHashMissing))
      case Some(hash) =>
        var served := ServeDelete(w.peer, op.path, target.size, hash);
        var after := w.(peer := served.device);
        match served.result
        case Err(error) => Outcome(after, Err(PeerStatus(error)))
        case Ok(ack) =>
          if ack != Ack(true, op.path, target.size, hash) then Outcome(after, Err(RemoteDeleteRejected))
          else Outcome(after, Ok(0))
  }

  ghost function UploadOperation(w: World, channel: Channel, manifest: Manifest, op: Operation): Outcome {
    match CheckLocal(w.local, op)
    case Err(error) => Outcome(w, Err(error))
    case Ok(file) =>
      match RemoteTarget(manifest, op.path)
      case None => PutFile(w, channel, op, file.size, file.hash.value)
      case Some(target) =>
        var cleared := ClearTarget(w, op, target);
        if cleared.result.Err? then cleared
        else PutFile(cleared.world, channel, op, file.size, file.hash.value)
  }

  // ------------------------------------------------------------------
  // The queue
  // ------------------------------------------------------------------

  ghost function Attempt(w: World, channel: Channel, manifest: Manifest, op: Operation): Outcome {
    var started := w.WithOperations(MarkStarted(w.Operations(), op.id));
    if op.kind == Download then DownloadOperation(started, channel, manifest, op)
    else UploadOperation(started, channel, manifest, op)
  }

  /** One round of the loops of `run_sync_queue`: a failure is recorded on the row. */
  ghost function ExecuteOne(w: World, channel: Channel, manifest: Manifest, op: Operation): Outcome {
    var o := Attempt(w, channel, manifest, op);
    match o.result
    case Ok(_) => o
    case Err(error) =>
      o.(world := o.world.WithOperations(SetStatus(o.world.Operations(), op.id, Failed, Some(error))))
  }

  datatype Batch = Batch(world: World, completed: nat, failed: nat)

  /** The state after the first `n` operations of the list. */
  ghost function ExecuteFirst(w: World, channel: Channel, manifest: Manifest, ops: seq<Operation>, n: nat): Batch
    requires n <= |ops|
  {
    if n == 0 then Batch(w, 0, 0)
    else
      var before := ExecuteFirst(w, channel, manifest, ops, n - 1);
      var o := ExecuteOne(before.world, channel, manifest, ops[n - 1]);
      if o.result.Ok? then Batch(o.world, before.completed + 1, before.failed)
      else Batch(o.world, before.completed, before.failed + 1)
  }

  function ScanBoth(w: World): World {
    World(Scan(w.local), Scan(w.peer))
  }

  /** The operations one run takes: downloads first, uploads with what is left of the limit. */
  function RunList(w: World, limit: nat): seq<Operation> {
    var downloads := ListPending(w.Operations(), w.peer.id, Download, limit);
    downloads + ListPending(w.Operations(), w.peer.id, Upload, SaturatingSub(limit, |downloads|))
  }

  datatype QueueRun = QueueRun(world: World, result: Result<(nat, nat), CoreError>)

  ghost function RunSyncQueue(w: World, channel: Channel, limit: U64): QueueRun {
    var s := ScanBoth(w);
    if limit > I64_MAX then QueueRun(s, Err(FileSizeOverflow))
    else
      var ops := RunList(s, limit);
      var batch := ExecuteFirst(s, channel, ManifestOf(s.peer), ops, |ops|);
      QueueRun(batch.world, Ok((batch.completed, batch.failed)))
  }

  /** `build_sync_plan` on devices that have just been scanned. */
  function PlanFor(w: World): SyncPlan {
    Planning.Plan(ManifestOf(w.local), ManifestOf(w.peer), w.local.mode)
  }

  function EnqueuePlan(w: World, now: nat): QueueRun {
    var s := ScanBoth(w);
    match Enqueue(s.local.tables, PlanFor(s), now)
    case Err(error) => QueueRun(s, Err(error))
    case Ok(tables) => QueueRun(s.(local := s.local.(tables := tables)), Ok((0, 0)))
  }

  ghost function RunSyncOnce(w: World, channel: Channel, limit: U64, now: nat): QueueRun {
    var queued := EnqueuePlan(w, now);
    if queued.result.Err? then queued else RunSyncQueue(queued.world, channel, limit)
  }

  // ------------------------------------------------------------------
  // Deleting through the agent
  // ------------------------------------------------------------------

  /** A deletion reaches the peer only when both its endpoint and its secret were given. */
  datatype DeleteScope = LocalOnly | PropagateToPeers(peerGiven: bool)

  function DeleteFile(w: World, path: Path, scope: DeleteScope): Outcome {
    if path !in w.local.tables.files then Outcome(w, Err(LocalFileMissing))
    else
      var existing := w.local.tables.files[path];
      var removed := w.local.(disk := w.local.disk - {path});
      match scope
      case LocalOnly =>
        Outcome(w.(local := removed.(tables := MarkDeletedLocally(removed.tables, path))), Ok(0))
      case PropagateToPeers(peerGiven) =>
        if !peerGiven then Outcome(w.(local := removed), Err(MissingPeerConfig))
        else match existing.hash
          case None => Outcome(w.(local := removed), Err(LocalHashMissing))
          case Some(hash) =>
            var served := ServeDelete(w.peer, path, existing.size, hash);
            match served.result
            case Err(error) => Outcome(World(removed, served.device), Err(PeerStatus(error)))
            case Ok(ack) =>
              if ack != Ack(true, path, existing.size, hash) then Outcome(World(removed, served.device), Err(UploadRejected))
              else Outcome(World(removed.(tables := Forget(removed.tables, path)), served.device), Ok(0))
  }

  // ------------------------------------------------------------------
  // Commands and edits
  // ------------------------------------------------------------------

  /** What happens at once on one device: `Edit` is a change of its folder from outside
      the agent, the others are commands of its user. */
  datatype Command =
    | Edit(name: RelativePaths.PlainPath, content: Option<Content>)
    | ScanFolder
    | RetryFailed(device: Option<DeviceId>)
    | ResolveBlocked(id: OperationId, resolution: Resolution)
    | Delete(path: Path, scope: DeleteScope)

  function EditFile(d: Device, path: Path, content: Option<Content>): Device {
    d.(disk := if content.Some? then d.disk[path := content.value] else d.disk - {path})
  }

  function Perform(w: World, c: Command): World {
    match c
    case Edit(path, content) => w.(local := EditFile(w.local, path, content))
    case ScanFolder => w.(local := Scan(w.local))
    case RetryFailed(device) => w.WithOperations(Retry(w.Operations(), device))
    case ResolveBlocked(id, resolution) =>
      var resolved := Resolve(w.Operations(), id, resolution);
      if resolved.Ok? then w.WithOperations(resolved.value) else w
    case Delete(path, scope) => DeleteFile(w, path, scope).world
  }

  /** The world as the acting device sees it, and back. */
  function Turn(w: World, byLocal: bool): World {
    if byLocal then w else w.Swap()
  }
}
