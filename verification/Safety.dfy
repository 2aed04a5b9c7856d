/** What one executed operation keeps and does between agreeing devices: agreement of
    index and disk, the recorded target, and the folder limit
    (crates/syncer-agent/src/main.rs:863-1106). */
module Safety {
  import opened Wrappers
  import opened Domain
  import opened StateTables
  import opened Devices
  import opened PeerCrypto
  import opened PeerServer
  import opened SyncEngine
  import opened Transfers
  import RelativePaths

  // ------------------------------------------------------------------
  // One operation
  // ------------------------------------------------------------------

  /** `d` is a device with the settings of `before` whose indexed bytes stay
      within the larger of where they were and the folder limit. */
  ghost predicate WithinLimit(before: Device, d: Device) {
    && d.id == before.id && d.mode == before.mode && d.maxBytes == before.maxBytes
    && IndexedBytes(d) <= Max(IndexedBytes(before), before.maxBytes)
  }

  /** The effect of an operation on the device that receives the file: nothing,
      the file put in place, or (with `mayClear`) the recorded file removed. */
  ghost predicate Receives(before: Device, after: Device, path: Path, hash: Option<Digest>, size: Option<nat>,
                           sent: map<Path, Content>, arrived: bool, mayClear: bool) {
    && (path in before.disk && after.disk != before.disk ==> Matches(hash, size, before.disk[path]))
    && (arrived ==> path in sent && after.disk == before.disk[path := sent[path]])
    && (!arrived ==> after.disk == before.disk || (mayClear && after.disk == before.disk - {path}))
  }

  /** Neither side's queue changes, but for the row the operation marks as done. */
  ghost predicate BooksKept(w: World, o: Outcome, op: Operation) {
    && o.world.peer.tables.operations == w.peer.tables.operations
    && o.world.peer.tables.nextId == w.peer.tables.nextId
    && o.world.local.tables.nextId == w.local.tables.nextId
    && o.world.Operations() ==
         if o.result.Ok? then SetStatus(w.Operations(), op.id, Done, None) else w.Operations()
  }

  lemma DownloadKeepsBooks(w: World, channel: Channel, manifest: Manifest, op: Operation)
    requires InStep(w) && channel.aead.Correct()
    ensures BooksKept(w, DownloadOperation(w, channel, manifest, op), op)
  {
    DownloadFacts(w, channel, manifest, op);
    hide DownloadOperation, Agrees, DownloadApplies;
  }

  lemma DownloadArrives(w: World, manifest: Manifest, op: Operation)
    requires InStep(w) && DownloadApplies(w, manifest, op)
    ensures var d := Downloaded(w, op, CheckRemote(manifest, op).value);
      && Agrees(d) && WithinLimit(w.local, d)
      && Receives(w.local, d, op.path, op.localHash, op.localSize, w.peer.disk, true, false)
  {
    hide Agrees, IndexedBytes;
    var remote := CheckRemote(manifest, op).value;
    DownloadedAgrees(w, op, remote);
    DownloadedBytes(w, op, remote);
  }

  lemma DownloadEffect(w: World, channel: Channel, manifest: Manifest, op: Operation)
    requires InStep(w) && channel.aead.Correct()
    ensures var o := DownloadOperation(w, channel, manifest, op);
      && InStep(o.world)
      && o.world.peer.disk == w.peer.disk
      && Receives(w.local, o.world.local, op.path, op.localHash, op.localSize, w.peer.disk, o.result.Ok?, false)
      && WithinLimit(w.local, o.world.local) && WithinLimit(w.peer, o.world.peer)
      && BooksKept(w, o, op)
  {
    hide DownloadOperation, Agrees, DownloadApplies, IndexedBytes, BooksKept, Downloaded, CheckRemote, ScanTables;
    DownloadFacts(w, channel, manifest, op);
    DownloadKeepsBooks(w, channel, manifest, op);
    RescanKeeps(w.peer);
    SameIndexSameBytes(Scan(w.peer), w.peer);
    var o := DownloadOperation(w, channel, manifest, op);
    if o.result.Ok? {
      DownloadArrives(w, manifest, op);
    } else {
      SameFolderFacts(o.world.local, w.local);
    }
  }

  lemma DownloadedBytes(w: World, op: Operation, remote: FileRecord)
    requires op.path in w.peer.disk && remote.size <= Remaining(w.local)
    ensures WithinLimit(w.local, Downloaded(w, op, remote))
  {
    var content := w.peer.disk[op.path];
    var record := Available(File, remote.size, Some(Blake3(content)), remote.generation, w.local.id);
    UpsertBytes(w.local, op.path, content, record);
    SameFolderFacts(w.local.WithFile(op.path, content, record), Downloaded(w, op, remote));
  }

  lemma UploadedFacts(peer: Device, path: Path, content: Content)
    requires Agrees(peer) && RelativePaths.Plain(path)
    ensures Agrees(Uploaded(peer, path, content))
    ensures |content| <= Remaining(peer) ==> WithinLimit(peer, Uploaded(peer, path, content))
  {
    var record := Available(File, |content|, Some(Blake3(content)), 1, peer.id);
    WriteAgrees(peer, path, content, record);
    UpsertBytes(peer, path, content, record);
  }

  lemma PutTargetFacts(w: World, manifest: Manifest, op: Operation)
    requires InStep(w)
    ensures var t := PutTarget(w, manifest, op);
      && Agrees(t) && WithinLimit(w.peer, t)
      && t.disk == (if Clears(w, manifest, op) then w.peer.disk - {op.path} else w.peer.disk)
  {
    if Clears(w, manifest, op) {
      ClearedFacts(w.peer, op.path);
    }
  }

  lemma UploadArrives(w: World, manifest: Manifest, op: Operation)
    requires InStep(w) && UploadApplies(w, manifest, op)
    ensures var p := Uploaded(PutTarget(w, manifest, op), op.path, w.local.disk[op.path]);
      && Agrees(p) && WithinLimit(w.peer, p)
      && Receives(w.peer, p, op.path, op.remoteHash, op.remoteSize, w.local.disk, true, true)
  {
    hide Agrees, Scan, IndexedBytes, CheckLocal, RemoteTarget;
    PutTargetFacts(w, manifest, op);
    PlainAt(w.local, op.path);
    UploadedFacts(PutTarget(w, manifest, op), op.path, w.local.disk[op.path]);
    assert w.peer.disk[op.path := w.local.disk[op.path]] == (w.peer.disk - {op.path})[op.path := w.local.disk[op.path]];
  }

  lemma UploadStops(w: World, manifest: Manifest, op: Operation, p: Device)
    requires InStep(w) && (p == PutTarget(w, manifest, op) || p == Scan(w.peer))
    ensures Agrees(p) && WithinLimit(w.peer, p)
    ensures Receives(w.peer, p, op.path, op.remoteHash, op.remoteSize, w.local.disk, false, true)
  {
    PutTargetFacts(w, manifest, op);
    RescanKeeps(w.peer);
    SameIndexSameBytes(Scan(w.peer), w.peer);
  }

  lemma UploadKeepsBooks(w: World, channel: Channel, manifest: Manifest, op: Operation)
    requires InStep(w) && channel.aead.Correct()
    ensures BooksKept(w, UploadOperation(w, channel, manifest, op), op)
  {
    hide UploadOperation, Agrees, UploadApplies, Clears;
    UploadFacts(w, channel, manifest, op);
  }

  lemma UploadEffect(w: World, channel: Channel, manifest: Manifest, op: Operation)
    requires InStep(w) && channel.aead.Correct()
    ensures var o := UploadOperation(w, channel, manifest, op);
      && InStep(o.world)
      && o.world.local.disk == w.local.disk
      && Receives(w.peer, o.world.peer, op.path, op.remoteHash, op.remoteSize, w.local.disk, o.result.Ok?, true)
      && WithinLimit(w.local, o.world.local) && WithinLimit(w.peer, o.world.peer)
      && BooksKept(w, o, op)
  {
    hide UploadOperation, Agrees, Scan, Receives, UploadApplies, PutTarget, BooksKept;
    UploadFacts(w, channel, manifest, op);
    UploadKeepsBooks(w, channel, manifest, op);
    var o := UploadOperation(w, channel, manifest, op);
    if o.result.Ok? {
      UploadArrives(w, manifest, op);
      SameFolderFacts(o.world.local, w.local);
    } else {
      UploadStops(w, manifest, op, o.world.peer);
    }
  }

  /** The hash and size an operation recorded of the side it writes to. */
  function TargetHash(op: Operation): Option<Digest> {
    if op.kind == Download then op.localHash else op.remoteHash
  }

  function TargetSize(op: Operation): Option<nat> {
    if op.kind == Download then op.localSize else op.remoteSize
  }

  /** The device the operation writes to, and the one it reads from. */
  function Target(w: World, op: Operation): Device {
    if op.kind == Download then w.local else w.peer
  }

  function Source(w: World, op: Operation): Device {
    if op.kind == Download then w.peer else w.local
  }

  lemma ExecuteEffect(w: World, channel: Channel, manifest: Manifest, op: Operation)
    requires InStep(w) && channel.aead.Correct()
    ensures var o := ExecuteOne(w, channel, manifest, op);
      && InStep(o.world)
      && Source(o.world, op).disk == Source(w, op).disk
      && Receives(Target(w, op), Target(o.world, op), op.path, TargetHash(op), TargetSize(op),
                  Source(w, op).disk, o.result.Ok?, op.kind != Download)
      && WithinLimit(w.local, o.world.local) && WithinLimit(w.peer, o.world.peer)
  {
    hide DownloadOperation, UploadOperation, Agrees, IndexedBytes;
    var started := w.WithOperations(MarkStarted(w.Operations(), op.id));
    SameFolderFacts(started.local, w.local);
    if op.kind == Download {
      DownloadEffect(started, channel, manifest, op);
    } else {
      UploadEffect(started, channel, manifest, op);
    }
    var tried := Attempt(w, channel, manifest, op);
    if tried.result.Err? {
      SameFolderFacts(ExecuteOne(w, channel, manifest, op).world.local, tried.world.local);
    }
  }

  /** The executor marks the row done or failed, and leaves every other row alone. */
  lemma ExecuteMarks(w: World, channel: Channel, manifest: Manifest, op: Operation)
    requires InStep(w) && channel.aead.Correct()
    ensures var o := ExecuteOne(w, channel, manifest, op);
      && o.world.Operations() == SetStatus(MarkStarted(w.Operations(), op.id), op.id,
           if o.result.Ok? then Done else Failed, if o.result.Ok? then None else Some(o.result.error))
      && o.world.local.tables.nextId == w.local.tables.nextId
      && o.world.peer.tables.operations == w.peer.tables.operations
      && o.world.peer.tables.nextId == w.peer.tables.nextId
  {
    hide DownloadOperation, UploadOperation, Agrees, IndexedBytes;
    var started := w.WithOperations(MarkStarted(w.Operations(), op.id));
    SameFolderFacts(started.local, w.local);
    if op.kind == Download {
      DownloadEffect(started, channel, manifest, op);
    } else {
      UploadEffect(started, channel, manifest, op);
    }
  }
}
