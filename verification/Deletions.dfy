/** Deleting a file through the agent: when the index stays in agreement with the disk
    (crates/syncer-agent/src/main.rs:603-684). */
module Deletions {
  import opened Wrappers
  import opened Domain
  import opened StateTables
  import opened Devices
  import opened PeerServer
  import opened SyncEngine
  import opened Transfers
  import opened Safety
  import opened Effects
  import opened Jobs
  import RelativePaths

  /** The peer's DELETE will find the very file that is being deleted here. */
  predicate SameFileThere(w: World, path: Path) {
    path in w.local.disk && path in w.peer.disk && w.local.disk[path] == w.peer.disk[path]
  }

  /** The deletion reaches a peer, and finds there what is deleted here. */
  predicate ReachesTheSameFile(w: World, path: Path, peerGiven: bool) {
    peerGiven && SameFileThere(w, path)
  }

  lemma RemovalsAgreeElsewhere(d: Device, path: Path, p: Path)
    requires p != path
    ensures AgreesAt(Unlinked(d, path), p) == AgreesAt(d, p)
    ensures AgreesAt(MarkedMissing(d, path), p) == AgreesAt(d, p)
    ensures AgreesAt(Removed(d, path), p) == AgreesAt(d, p)
  {
  }

  lemma RemovalsAgreeThere(d: Device, path: Path)
    ensures AgreesAt(Removed(d, path), path)
    ensures path in d.tables.files ==> AgreesAt(MarkedMissing(d, path), path)
    ensures AgreesAt(d, path) ==> (AgreesAt(Unlinked(d, path), path) <==> path !in d.disk)
  {
  }

  /** A deletion on this device alone always leaves the index right about the path: the
      record stays, with its kind, size and hash, as a missing one. */
  lemma LocalOnlyDeleteAgrees(w: World, path: Path)
    requires AgreesAt(w.local, path)
    ensures var o := DeleteFile(w, path, LocalOnly);
      && AgreesAt(o.world.local, path) && o.world.peer == w.peer
      && (path in w.local.tables.files ==>
            && path !in o.world.local.disk && path in o.world.local.tables.files
            && o.world.local.tables.files[path] == w.local.tables.files[path].(state := UnsynchronizedLocalMissing))
      && (path !in w.local.tables.files ==> o == Outcome(w, Err(LocalFileMissing)))
  {
  }

  /** A propagated deletion leaves the local index right about the path if and only if
      there was no local file, or a peer was given and holds the same one. */
  lemma PropagatedDeleteAt(w: World, path: Path, peerGiven: bool)
    requires AgreesAt(w.local, path) && Sound(w.peer)
    ensures var o := DeleteFile(w, path, PropagateToPeers(peerGiven));
      && (AgreesAt(o.world.local, path) <==> path !in w.local.disk || ReachesTheSameFile(w, path, peerGiven))
      && path !in o.world.local.disk
      && (ReachesTheSameFile(w, path, peerGiven) ==>
            && o.result.Ok? && path !in o.world.peer.disk
            && path !in o.world.local.tables.files && path !in o.world.peer.tables.files)
  {
    hide Scan, ServeDelete;
    var scope := PropagateToPeers(peerGiven);
    RemovalsAgreeThere(w.local, path);
    if path in w.local.tables.files && w.local.tables.files[path].hash.Some? {
      DeleteExact(w.peer, path, w.local.tables.files[path].size, w.local.tables.files[path].hash.value);
      ScanChangesTheIndexOnly(w.peer);
    }
    if path !in w.local.tables.files {
      assert w.local.disk - {path} == w.local.disk;
    }
    assert DeleteFile(w, path, scope).world.local in {w.local, Unlinked(w.local, path), Removed(w.local, path)};
  }

  lemma DeleteElsewhere(w: World, path: Path, scope: DeleteScope, p: Path)
    requires p != path
    ensures AgreesAt(DeleteFile(w, path, scope).world.local, p) == AgreesAt(w.local, p)
    ensures StaysAt(w.local, DeleteFile(w, path, scope).world.local, p) && StaysAt(w.peer, DeleteFile(w, path, scope).world.peer, p)
  {
    DeleteCases(w, path, scope);
    RemovalsAgreeElsewhere(w.local, path, p);
    ScanChangesTheIndexOnly(w.peer);
    hide AgreesAt, DeleteFile, Scan;
  }

  /** The same for whole devices: from devices in step, every record of this device is
      right afterwards if and only if that one is. */
  lemma PropagatedDeleteKeepsIndex(w: World, path: Path, peerGiven: bool)
    requires InStep(w)
    ensures var o := DeleteFile(w, path, PropagateToPeers(peerGiven));
      && (Agrees(o.world.local) <==> path !in w.local.disk || ReachesTheSameFile(w, path, peerGiven))
      && Agrees(o.world.peer)
      && path !in o.world.local.disk
      && (ReachesTheSameFile(w, path, peerGiven) ==> o.result.Ok? && path !in o.world.peer.disk)
  {
    hide Agrees, AgreesAt, DeleteFile, Sound, Keeps, PlainNames, ReachesTheSameFile;
    var o := DeleteFile(w, path, PropagateToPeers(peerGiven));
    InStepIsSound(w);
    AgreesPathByPath(w.local);
    AgreesPathByPath(w.peer);
    AgreesPathByPath(o.world.local);
    AgreesPathByPath(o.world.peer);
    DeleteFacts(w, path, PropagateToPeers(peerGiven));
    KeepsIsKeepsFolder(w.peer, o.world.peer);
    KeepsFolderFacts(w.peer, o.world.peer);
    SoundHasPlainNames(o.world.local);
    SoundHasPlainNames(o.world.peer);
    PropagatedDeleteAt(w, path, peerGiven);
    forall p | p != path ensures AgreesAt(o.world.local, p) {
      DeleteElsewhere(w, path, PropagateToPeers(peerGiven), p);
    }
  }

  lemma SoundHasPlainNames(d: Device)
    requires Sound(d)
    ensures PlainNames(d)
  {
  }

  lemma InStepIsSound(w: World)
    requires InStep(w)
    ensures Sound(w.local) && Sound(w.peer)
  {
  }

  /** A device with one indexed file, and one without any. */
  function OneFile(id: DeviceId, path: Path, content: Content): Device {
    Device(id, Bidirectional, 1000, map[path := content], EmptyTables.(files := map[path := Scanned(content, id)]))
  }

  function NoFile(): Device {
    Device(2, Bidirectional, 1000, map[], EmptyTables)
  }

  lemma OneFileAgrees(id: DeviceId, path: RelativePaths.PlainPath, content: Content)
    ensures Agrees(OneFile(id, path, content)) && Agrees(NoFile())
  {
  }

  lemma WithoutAPeer(w: World, path: Path)
    ensures DeleteFile(w, path, PropagateToPeers(false)).world.peer == w.peer
  {
  }

  /** The promise fails when the peer has no such file, and also, whatever the peer has,
      when no peer was given: the record stays available although the file is gone, until
      the next scan. */
  lemma PropagatedDeleteCanLeaveAStaleRecord(content: Content, peerGiven: bool)
    ensures var w := World(OneFile(1, "a", content), if peerGiven then NoFile() else OneFile(2, "a", content));
      var o := DeleteFile(w, "a", PropagateToPeers(peerGiven));
      && InStep(w) && "a" in w.local.disk && "a" !in o.world.local.disk
      && (!peerGiven ==> SameFileThere(w, "a") && o.world.peer == w.peer)
      && !Agrees(o.world.local) && Agrees(Scan(o.world.local))
  {
    hide Agrees, Scan, DeleteFile, Sound, RelativePaths.Plain, Keeps;
    RelativePaths.OneLetterIsPlain();
    OneFileAgrees(1, "a", content);
    OneFileAgrees(2, "a", content);
    var w := World(OneFile(1, "a", content), if peerGiven then NoFile() else OneFile(2, "a", content));
    InStepIsSound(w);
    PropagatedDeleteKeepsIndex(w, "a", peerGiven);
    WithoutAPeer(w, "a");
    DeleteFacts(w, "a", PropagateToPeers(peerGiven));
    ScanAgrees(DeleteFile(w, "a", PropagateToPeers(peerGiven)).world.local);
  }

  // ------------------------------------------------------------------
  // Deletions and the folder limit
  // ------------------------------------------------------------------

  lemma RemovalsAreNotLarger(d: Device, path: Path)
    requires Covered(d)
    ensures forall r :: r == Unlinked(d, path) || r == MarkedMissing(d, path) || r == Removed(d, path) ==>
      Covered(r) && IndexedBytes(r) <= IndexedBytes(d)
  {
    assert Sizes(MarkedMissing(d, path).tables.files) == Sizes(d.tables.files);
    RemovedBytes(d, path);
  }

  lemma DeleteWithin(w: World, path: Path, scope: DeleteScope)
    requires Covered(w.local)
    ensures var d := DeleteFile(w, path, scope).world.local; Covered(d) && WithinLimit(w.local, d)
  {
    hide DeleteFile, Covered, IndexedBytes;
    DeleteCases(w, path, scope);
    RemovalsAreNotLarger(w.local, path);
  }
}
