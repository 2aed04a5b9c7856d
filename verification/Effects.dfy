/** What one executed operation can do in any state whatever: with a manifest of any
    age, after any edits, between the operations of other runs
    (crates/syncer-agent/src/main.rs:863-1068). */
module Effects {
  import opened Wrappers
  import opened Domain
  import opened StateTables
  import opened Devices
  import opened PeerCrypto
  import opened PeerServer
  import opened SyncEngine
  import opened Transfers
  import opened Safety
  import opened Runs
  import QueueMachine
  import RelativePaths
  import Sums

  // ------------------------------------------------------------------
  // The shapes of the outcomes
  // ------------------------------------------------------------------

  /** `after` is `before` with one file more or replaced, indexed as it is and within the limit. */
  ghost predicate Gains(before: Device, path: Path, after: Device) {
    && path in after.disk && path in after.tables.files
    && var content, record := after.disk[path], after.tables.files[path];
       && record == Available(File, |content|, Some(Blake3(content)), record.generation, before.id)
       && |content| <= Remaining(before)
       && after == before.WithFile(path, content, record)
  }

  ghost predicate DownloadShape(w: World, manifest: Manifest, op: Operation, o: Outcome) {
    && (o.world.peer == w.peer || o.world.peer == Scan(w.peer))
    && (o.result.Err? ==> o.world.local == SkippedIfFull(w.local, manifest, op))
    && (o.result.Ok? ==>
          && op.path in manifest.files && (op.path in w.local.disk ==> MayReplace(w.local, op))
          && Gains(w.local, op.path, o.world.local.WithOperations(w.Operations()))
          && o.world.Operations() == SetStatus(w.Operations(), op.id, Done, None))
  }

  lemma DownloadHasShape(w: World, channel: Channel, manifest: Manifest, op: Operation)
    ensures DownloadShape(w, manifest, op, DownloadOperation(w, channel, manifest, op))
  {
    hide ServeGet, Remaining, Decrypt, EncryptedLen;
    var o := DownloadOperation(w, channel, manifest, op);
    if o.result.Ok? {
      var content, record := o.world.local.disk[op.path], o.world.local.tables.files[op.path];
      assert o.world.local.WithOperations(w.Operations()) == w.local.WithFile(op.path, content, record);
    }
    GetScans(w.peer, channel, op.path, channel.prefix(op.id, op.retryCount));
  }

  lemma GetScans(d: Device, channel: Channel, path: Path, prefix: NoncePrefix)
    ensures ServeGet(d, channel, path, prefix).device == Scan(d)
  {
    hide Scan, Encrypt;
  }

  /** The peer holds the very file the operation recorded of it. */
  predicate RecordedThere(peer: Device, op: Operation) {
    op.path in peer.disk && Matches(op.remoteHash, op.remoteSize, peer.disk[op.path])
  }

  /** The peer's place is free, and then filled. */
  ghost predicate Fills(before: Device, path: Path, after: Device) {
    path !in before.disk && Gains(before, path, after)
  }

  /** The peer is unchanged or scanned; or it has lost the recorded file, or gained the
      file that was `sent`, or both. */
  ghost predicate PeerShape(peer: Device, op: Operation, sent: bool, after: Device) {
    || after == peer || after == Scan(peer) || (sent && Fills(peer, op.path, after))
    || (RecordedThere(peer, op)
        && (after == Cleared(peer, op.path) || (sent && Fills(Cleared(peer, op.path), op.path, after))))
  }

  ghost predicate UploadShape(w: World, op: Operation, o: Outcome) {
    && o.world.local == (if o.result.Ok? then w.local.WithOperations(SetStatus(w.Operations(), op.id, Done, None)) else w.local)
    && PeerShape(w.peer, op, op.path in w.local.disk, o.world.peer)
  }

  lemma PutHasShape(w: World, channel: Channel, op: Operation, size: Size, hash: Digest)
    requires channel.aead.Correct()
    ensures var o := PutFile(w, channel, op, size, hash);
      && o.world.local == (if o.result.Ok? then w.local.WithOperations(SetStatus(w.Operations(), op.id, Done, None)) else w.local)
      && (o.world.peer == w.peer || (op.path in w.local.disk && Fills(w.peer, op.path, o.world.peer)))
  {
    hide ServePut, Encrypt, Remaining;
    if op.path in w.local.disk {
      var nonce := channel.prefix(op.id, op.retryCount);
      var context := FileCipherContext("upload", op.path, channel.text(hash), size);
      var content := w.local.disk[op.path];
      var file := Encrypt(Cipher(channel.aead, nonce), context, content);
      if file.Ok? {
        EncryptedIsWhole(Cipher(channel.aead, nonce), context, content);
        PutExact(w.peer, channel, op.path, size, hash, nonce, file.value.ciphertext, content);
      }
    }
  }

  lemma EncryptedIsWhole(cipher: Cipher, context: FileCipherContext, content: Content)
    requires Encrypt(cipher, context, content).Ok?
    ensures |content| == context.plaintextSize && Encrypt(cipher, context, content).value.digest == Blake3(content)
  {
  }

  lemma DeleteHasShape(d: Device, path: Path, size: U64, hash: Digest)
    ensures var s := ServeDelete(d, path, size, hash);
      if s.result.Ok? then
        path in d.disk && Matches(Some(hash), Some(size), d.disk[path]) && s.device == Cleared(d, path)
      else s.device == Scan(d)
  {
    ScanAt(d.tables, d.disk, d.id, path);
    hide ScanTables;
  }

  lemma ClearHasShape(w: World, op: Operation, target: FileRecord)
    ensures var o := ClearTarget(w, op, target);
      && o.world.local == w.local
      && (if o.result.Ok? then RecordedThere(w.peer, op) && o.world.peer == Cleared(w.peer, op.path)
          else o.world.peer == w.peer || o.world.peer == Scan(w.peer)
               || (RecordedThere(w.peer, op) && o.world.peer == Cleared(w.peer, op.path)))
  {
    hide ServeDelete, Scan;
    if target.hash.Some? {
      DeleteHasShape(w.peer, op.path, target.size, target.hash.value);
    }
  }

  lemma UploadHasShape(w: World, channel: Channel, manifest: Manifest, op: Operation)
    requires channel.aead.Correct()
    ensures UploadShape(w, op, UploadOperation(w, channel, manifest, op))
  {
    hide ClearTarget, PutFile, Gains, Scan;
    if CheckLocal(w.local, op).Ok? {
      var file := CheckLocal(w.local, op).value;
      match RemoteTarget(manifest, op.path)
      case None =>
        PutHasShape(w, channel, op, file.size, file.hash.value);
      case Some(target) =>
        ClearHasShape(w, op, target);
        var cleared := ClearTarget(w, op, target);
        if cleared.result.Ok? {
          PutHasShape(cleared.world, channel, op, file.size, file.hash.value);
        }
    }
  }

  // ------------------------------------------------------------------
  // One executed operation
  // ------------------------------------------------------------------

  /** The folder of the executing device, its queue aside: unchanged but for the skip
      list, or with the downloaded file. */
  ghost predicate LocalShape(local: Device, manifest: Manifest, op: Operation, after: Device) {
    || after == local || after == SkippedIfFull(local, manifest, op)
    || (op.kind == Download && op.path in manifest.files && (op.path in local.disk ==> MayReplace(local, op))
        && Gains(local, op.path, after))
  }

  ghost predicate Effect(w: World, manifest: Manifest, op: Operation, v: World) {
    && LocalShape(w.local, manifest, op, v.local.WithOperations(w.Operations()))
    && (if op.kind == Download then v.peer == w.peer || v.peer == Scan(w.peer)
        else PeerShape(w.peer, op, op.path in w.local.disk, v.peer))
  }

  /** The rows after an operation: its own has the outcome, the others are as they were. */
  predicate Booked(before: seq<Operation>, op: Operation, result: Result<nat, TransferError>, after: seq<Operation>) {
    after == SetStatus(MarkStarted(before, op.id), op.id,
      if result.Ok? then Done else Failed, if result.Ok? then None else Some(result.error))
  }

  lemma SkippedOnly(d: Device, manifest: Manifest, op: Operation)
    ensures var s := SkippedIfFull(d, manifest, op);
      && s == d.(tables := d.tables.(skipped := s.tables.skipped))
      && (forall ops :: SkippedIfFull(d.WithOperations(ops), manifest, op) == s.WithOperations(ops))
  {
    hide CheckRemote;
  }

  lemma SameRoom(d: Device, ops: seq<Operation>)
    ensures Remaining(d.WithOperations(ops)) == Remaining(d) && Scan(d.WithOperations(ops)) == Scan(d).WithOperations(ops)
  {
  }

  lemma ExecuteHasEffect(w: World, channel: Channel, manifest: Manifest, op: Operation)
    requires channel.aead.Correct()
    ensures var o := ExecuteOne(w, channel, manifest, op);
      && Effect(w, manifest, op, o.world)
      && Booked(w.Operations(), op, o.result, o.world.Operations())
      && o.world.local.tables.nextId == w.local.tables.nextId
  {
    hide DownloadOperation, UploadOperation, SkippedIfFull, Remaining, PeerShape, Scan, SetStatus, MarkStarted;
    var rows := MarkStarted(w.Operations(), op.id);
    var started := w.WithOperations(rows);
    SkippedOnly(w.local, manifest, op);
    SkippedOnly(started.local, manifest, op);
    SameRoom(w.local, rows);
    if op.kind == Download {
      DownloadHasShape(started, channel, manifest, op);
      var o := DownloadOperation(started, channel, manifest, op);
      if o.result.Ok? {
        SameGain(w.local, rows, op.path, o.world.local);
      }
    } else {
      UploadHasShape(started, channel, manifest, op);
    }
  }

  lemma SameGain(d: Device, rows: seq<Operation>, path: Path, after: Device)
    requires Gains(d.WithOperations(rows), path, after.WithOperations(rows))
    ensures Gains(d, path, after.WithOperations(d.tables.operations)) && after.tables.nextId == d.tables.nextId
  {
    hide Remaining;
    SameRoom(d, rows);
    var content, record := after.disk[path], after.tables.files[path];
    assert after.WithOperations(rows) == d.WithOperations(rows).WithFile(path, content, record);
  }

  // ------------------------------------------------------------------
  // What every device keeps
  // ------------------------------------------------------------------

  /** What a change by the engine keeps of a device, whatever its state: settings,
      queue, soundness, agreement path by path, and the folder limit. */
  ghost predicate Keeps(before: Device, after: Device) {
    && SameSettings(after, before) && SameQueue(after, before)
    && (Sound(before) ==> Sound(after))
    && (Sound(before) ==> forall p :: AgreesAt(before, p) ==> AgreesAt(after, p))
    && (Covered(before) ==> Covered(after) && WithinLimit(before, after))
  }

  lemma KeepsItself(d: Device)
    ensures Keeps(d, d)
  {
  }

  lemma KeepsSteps(a: Device, b: Device, c: Device)
    requires Keeps(a, b) && Keeps(b, c)
    ensures Keeps(a, c)
  {
    hide Sound, AgreesAt, Covered, IndexedBytes;
  }

  lemma ScanKeeps(d: Device)
    ensures Keeps(d, Scan(d)) && Scan(d).disk == d.disk
  {
    hide ScanTables, AgreesAt, Covered, IndexedBytes, Agrees;
    ScanChangesTheIndexOnly(d);
    if Sound(d) {
      ScanAgrees(d);
      SoundWhenAgreeing(Scan(d));
      forall p ensures AgreesAt(Scan(d), p) {
        ScanAgreesAt(d, p);
      }
    }
    if Covered(d) {
      ScanKeepsBytes(d);
    }
  }

  lemma SoundWhenAgreeing(d: Device)
    requires Agrees(d)
    ensures Sound(d)
  {
  }

  lemma RemovedKeeps(d: Device, path: Path)
    ensures Keeps(d, Removed(d, path))
  {
    if Covered(d) {
      RemovedBytes(d, path);
    }
    hide IndexedBytes;
  }

  lemma RemovedBytes(d: Device, path: Path)
    ensures IndexedBytes(Removed(d, path)) <= IndexedBytes(d)
  {
    assert Sizes(Removed(d, path).tables.files) == Sizes(d.tables.files) - {path};
    if path in d.tables.files {
      Sums.SumWithout(Sizes(d.tables.files), path);
    } else {
      assert Sizes(d.tables.files) - {path} == Sizes(d.tables.files);
    }
  }

  lemma ClearedKeeps(d: Device, path: Path)
    ensures Keeps(d, Cleared(d, path)) && Cleared(d, path).disk == d.disk - {path}
  {
    hide Keeps, ScanTables;
    ScanKeeps(d);
    RemovedKeeps(Scan(d), path);
    KeepsSteps(d, Scan(d), Cleared(d, path));
  }

  lemma GainKeeps(before: Device, path: Path, after: Device)
    requires Gains(before, path, after) && RelativePaths.Plain(path)
    ensures Keeps(before, after) && after.disk == before.disk[path := after.disk[path]]
    ensures AgreesAt(after, path)
  {
    hide IndexedBytes, RelativePaths.Plain;
    UpsertBytes(before, path, after.disk[path], after.tables.files[path]);
  }

  lemma SkipKeeps(d: Device, manifest: Manifest, op: Operation)
    ensures Keeps(d, SkippedIfFull(d, manifest, op)) && SkippedIfFull(d, manifest, op).disk == d.disk
  {
    SkippedOnly(d, manifest, op);
    hide SkippedIfFull;
  }

  /** Every name in a manifest is one that parsing leaves alone. */
  ghost predicate PlainManifest(manifest: Manifest) {
    forall p {:trigger RelativePaths.Plain(p)} :: p in manifest.files ==> RelativePaths.Plain(p)
  }

  lemma LocalKeeps(local: Device, manifest: Manifest, op: Operation, after: Device)
    requires LocalShape(local, manifest, op, after) && PlainManifest(manifest)
    ensures Keeps(local, after)
  {
    hide Keeps, Gains, SkippedIfFull, RelativePaths.Plain;
    KeepsItself(local);
    SkipKeeps(local, manifest, op);
    if op.path in manifest.files && Gains(local, op.path, after) {
      GainKeeps(local, op.path, after);
    }
  }

  lemma PeerKeeps(peer: Device, op: Operation, sent: bool, after: Device)
    requires PeerShape(peer, op, sent, after) && (sent ==> RelativePaths.Plain(op.path))
    ensures Keeps(peer, after)
  {
    hide Keeps, Gains, Scan, RelativePaths.Plain, Cleared;
    KeepsItself(peer);
    ScanKeeps(peer);
    ClearedKeeps(peer, op.path);
    if sent && Fills(peer, op.path, after) {
      GainKeeps(peer, op.path, after);
    } else if sent && Fills(Cleared(peer, op.path), op.path, after) {
      GainKeeps(Cleared(peer, op.path), op.path, after);
      KeepsSteps(peer, Cleared(peer, op.path), after);
    }
  }

  /** An executed operation keeps all that of both devices. */
  lemma EffectKeeps(w: World, manifest: Manifest, op: Operation, v: World)
    requires Effect(w, manifest, op, v) && PlainManifest(manifest) && Sound(w.local)
    ensures Keeps(w.local, v.local.WithOperations(w.Operations())) && Keeps(w.peer, v.peer)
  {
    hide Keeps, LocalShape, PeerShape, Scan, RelativePaths.Plain;
    LocalKeeps(w.local, manifest, op, v.local.WithOperations(w.Operations()));
    KeepsItself(w.peer);
    ScanKeeps(w.peer);
    if op.kind != Download {
      PeerKeeps(w.peer, op, op.path in w.local.disk, v.peer);
    }
  }

  // ------------------------------------------------------------------
  // What it can take away
  // ------------------------------------------------------------------

  /** `p` has the same bytes afterwards. */
  predicate StaysAt(before: Device, after: Device, p: Path) {
    p in before.disk ==> p in after.disk && after.disk[p] == before.disk[p]
  }

  /** On the executing device only a download that may replace its target takes a file
      away, and only that one. */
  lemma LocalLoss(w: World, manifest: Manifest, op: Operation, v: World, p: Path)
    requires Effect(w, manifest, op, v)
    ensures StaysAt(w.local, v.local, p) || (op.kind == Download && op.path == p && MayReplace(w.local, op))
    ensures op.kind != Download ==> v.local.disk == w.local.disk
  {
    SkippedOnly(w.local, manifest, op);
    hide SkippedIfFull, Remaining;
  }

  /** On the peer only an upload takes a file away, and only the recorded one. */
  lemma PeerLoss(w: World, manifest: Manifest, op: Operation, v: World, p: Path)
    requires Effect(w, manifest, op, v)
    ensures StaysAt(w.peer, v.peer, p) || (op.kind != Download && op.path == p && RecordedThere(w.peer, op))
    ensures op.kind == Download ==> v.peer.disk == w.peer.disk
  {
    hide Remaining, ScanTables, LocalShape;
  }

  /** Without consent nothing is taken away, in any state and with any manifest. */
  lemma UnconsentedLosesNothing(w: World, manifest: Manifest, op: Operation, v: World, p: Path)
    requires Effect(w, manifest, op, v) && op.IsTransfer() && QueueMachine.Lawful(op) && !op.Consented()
    ensures StaysAt(w.local, v.local, p) && StaysAt(w.peer, v.peer, p)
  {
    hide Effect, StaysAt;
    LocalLoss(w, manifest, op, v, p);
    PeerLoss(w, manifest, op, v, p);
  }

  /** With consent the file that goes is the one it names, if the index of the executing
      device was right about it. */
  lemma ConsentNamesTheLoss(w: World, manifest: Manifest, op: Operation, v: World, p: Path)
    requires Effect(w, manifest, op, v) && op.IsTransfer() && QueueMachine.Lawful(op)
    ensures p in w.local.disk && AgreesAt(w.local, p) ==>
      StaysAt(w.local, v.local, p) || (op.kind == Download && Agreed(op, p, w.local.disk[p]))
    ensures p in w.peer.disk ==>
      StaysAt(w.peer, v.peer, p) || (op.kind == Upload && Agreed(op, p, w.peer.disk[p]))
  {
    hide Effect, StaysAt;
    LocalLoss(w, manifest, op, v, p);
    PeerLoss(w, manifest, op, v, p);
  }

  // ------------------------------------------------------------------
  // The queue set aside
  // ------------------------------------------------------------------

  function WithQueueOf(d: Device, other: Device): Device {
    d.(tables := d.tables.(operations := other.tables.operations, nextId := other.tables.nextId))
  }

  /** What `Keeps` says, for a device whose queue may have changed. */
  ghost predicate KeepsFolder(before: Device, after: Device) {
    Keeps(before, WithQueueOf(after, before))
  }

  lemma KeepsFolderFacts(before: Device, after: Device)
    requires KeepsFolder(before, after)
    ensures SameSettings(after, before)
    ensures Sound(before) ==> Sound(after)
    ensures Sound(before) ==> forall p :: AgreesAt(before, p) ==> AgreesAt(after, p)
    ensures Covered(before) ==> Covered(after) && WithinLimit(before, after)
  {
    var d := WithQueueOf(after, before);
    assert Sound(d) == Sound(after) && Covered(d) == Covered(after) && IndexedBytes(d) == IndexedBytes(after);
    forall p ensures AgreesAt(d, p) == AgreesAt(after, p) {
    }
    hide Sound, AgreesAt, Covered, IndexedBytes;
  }

  lemma SameButQueue(before: Device, after: Device)
    requires WithQueueOf(after, before) == before
    ensures KeepsFolder(before, after) && after.disk == before.disk
  {
    KeepsItself(before);
    hide Keeps;
  }

  lemma KeepsIsKeepsFolder(before: Device, after: Device)
    requires Keeps(before, after)
    ensures KeepsFolder(before, after)
  {
    assert WithQueueOf(after, before) == after;
    hide Sound, AgreesAt, Covered, WithinLimit;
  }

  /** An executed operation, whatever the state: both folders keep what they should, the
      peer's queue is not touched, and the rows of the executing device are booked. */
  lemma ExecuteKeeps(w: World, channel: Channel, manifest: Manifest, op: Operation)
    requires channel.aead.Correct() && PlainManifest(manifest) && Sound(w.local)
    ensures var o := ExecuteOne(w, channel, manifest, op);
      && KeepsFolder(w.local, o.world.local) && Keeps(w.peer, o.world.peer)
      && Booked(w.Operations(), op, o.result, o.world.Operations())
      && o.world.local.tables.nextId == w.local.tables.nextId
  {
    hide ExecuteOne, Effect, Keeps, Booked;
    ExecuteHasEffect(w, channel, manifest, op);
    var v := ExecuteOne(w, channel, manifest, op).world;
    EffectKeeps(w, manifest, op, v);
    assert WithQueueOf(v.local, w.local) == v.local.WithOperations(w.Operations());
  }
}
