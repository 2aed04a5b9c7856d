/** Rounds of `run_sync_once` in a bidirectional folder with room on both sides
    carry every one-sided file across, at the pace of the limit, and then rest. */
module Convergence {
  import opened Wrappers
  import opened Domain
  import opened StateTables
  import opened Devices
  import opened PeerCrypto
  import opened PeerServer
  import opened SyncEngine
  import opened Transfers
  import opened Runs
  import Sums

  // ------------------------------------------------------------------
  // The backlog and the room for it
  // ------------------------------------------------------------------

  /** The files of `from` that `to` has never heard of, with their sizes. */
  function Wanted(from: Device, to: Device): map<Path, nat> {
    map p | p in from.disk && p !in to.tables.files :: |from.disk[p]|
  }

  ghost function Backlog(w: World): nat {
    |Wanted(w.peer, w.local)| + |Wanted(w.local, w.peer)|
  }

  /** Every wanted file fits, on top of what is indexed. */
  ghost predicate Fits(from: Device, to: Device) {
    IndexedBytes(to) + Sums.Sum(Wanted(from, to)) <= to.maxBytes
  }

  ghost predicate Room(w: World) {
    Fits(w.peer, w.local) && Fits(w.local, w.peer)
  }

  /** The paths a device has a record but no file of. */
  function Missing(d: Device): set<Path> {
    d.tables.files.Keys - d.disk.Keys
  }

  /** No file comes from nowhere, and files that came to be on both devices are equal. */
  ghost predicate NewFilesMatch(before: World, after: World) {
    && (forall p :: p in after.local.disk || p in after.peer.disk ==> p in before.local.disk || p in before.peer.disk)
    && (forall p :: p in after.local.disk && p in after.peer.disk ==>
          after.local.disk[p] == after.peer.disk[p] || (p in before.local.disk && p in before.peer.disk))
  }

  /** No file is removed or changed, none becomes missing, and what is new on a
      device is what the other one has. */
  ghost predicate Progress(before: World, after: World) {
    && Grows(before.local.disk, after.local.disk) && Grows(before.peer.disk, after.peer.disk)
    && Missing(after.local) <= Missing(before.local) && Missing(after.peer) <= Missing(before.peer)
    && NewFilesMatch(before, after)
  }

  lemma ProgressSteps(a: World, b: World, c: World)
    ensures Progress(a, a)
    ensures Progress(a, b) && Progress(b, c) ==> Progress(a, c)
  {
  }

  lemma ScanKeepsMissing(d: Device)
    ensures Missing(Scan(d)) == Missing(d)
  {
    forall p ensures p in Missing(Scan(d)) <==> p in Missing(d) {
      ScanAt(d.tables, d.disk, d.id, p);
    }
  }

  ghost predicate SameKeys(a: Device, b: Device) {
    a.disk == b.disk && a.tables.files.Keys == b.tables.files.Keys && a.maxBytes == b.maxBytes
    && IndexedBytes(a) == IndexedBytes(b)
  }

  lemma SameKeysSameBacklog(a: World, b: World)
    requires SameKeys(a.local, b.local) && SameKeys(a.peer, b.peer)
    ensures Backlog(a) == Backlog(b) && (Room(a) <==> Room(b))
    ensures Wanted(a.peer, a.local) == Wanted(b.peer, b.local) && Wanted(a.local, a.peer) == Wanted(b.local, b.peer)
  {
    hide IndexedBytes;
  }

  lemma RescanKeepsKeys(d: Device)
    requires Agrees(d)
    ensures SameKeys(Scan(d), d)
  {
    RescanKeeps(d);
    SameIndexSameBytes(Scan(d), d);
  }

  /** `to` holds the file of `from` at `path`, and its index says so. */
  ghost predicate Gained(from: Device, to: Device, path: Path, after: Device) {
    && path in from.disk
    && after.disk == to.disk[path := from.disk[path]]
    && after.tables.files.Keys == to.tables.files.Keys + {path}
    && after.maxBytes == to.maxBytes
    && IndexedBytes(after) == IndexedBytes(to) + |from.disk[path]|
  }

  lemma ArrivalChangesWanted(from: Device, to: Device, path: Path, from': Device, to': Device)
    requires path in Wanted(from, to) && SameKeys(from', from) && Gained(from, to, path, to') && path in from.tables.files
    ensures Wanted(from', to') == Wanted(from, to) - {path}
    ensures Wanted(to', from') == Wanted(to, from)
    ensures Wanted(from, to)[path] == |from.disk[path]|
  {
    hide IndexedBytes;
  }

  /** A wanted file that arrives leaves the backlog, and takes as much room as it
      was counted with. */
  lemma ArrivalShrinksBacklog(from: Device, to: Device, path: Path, from': Device, to': Device)
    requires path in Wanted(from, to) && SameKeys(from', from) && Gained(from, to, path, to') && path in from.tables.files
    ensures Wanted(from', to') == Wanted(from, to) - {path}
    ensures |Wanted(from', to')| == |Wanted(from, to)| - 1
    ensures Wanted(to', from') == Wanted(to, from)
    ensures Fits(from', to') <==> Fits(from, to)
    ensures Fits(to', from') <==> Fits(to, from)
  {
    hide IndexedBytes, Wanted;
    ArrivalChangesWanted(from, to, path, from', to');
    Sums.SumWithout(Wanted(from, to), path);
    assert Wanted(from, to).Keys == Wanted(from', to').Keys + {path};
  }

  lemma {:induction false} PartOfSum(m: map<Path, nat>, p: Path)
    requires p in m
    ensures m[p] <= Sums.Sum(m)
  {
    Sums.SumWithout(m, p);
  }

  // ------------------------------------------------------------------
  // Operations that must succeed
  // ------------------------------------------------------------------

  /** The operation transfers a wanted file as the plan found it. */
  predicate Ready(w: World, manifest: Manifest, op: Operation) {
    if op.kind == Download then
      && op.path in Wanted(w.peer, w.local)
      && op.path in manifest.files && Describes(manifest.files[op.path], w.peer.disk[op.path])
      && Matches(op.remoteHash, op.remoteSize, w.peer.disk[op.path])
    else
      && op.path in Wanted(w.local, w.peer)
      && op.path !in manifest.files
      && Matches(op.localHash, op.localSize, w.local.disk[op.path])
  }

  lemma ReadyApplies(w: World, manifest: Manifest, op: Operation)
    requires InStep(w) && Room(w) && Ready(w, manifest, op)
    ensures op.kind == Download ==> DownloadApplies(w, manifest, op)
    ensures op.kind == Download ==> CheckRemote(manifest, op) == Ok(manifest.files[op.path])
    ensures op.kind != Download ==> UploadApplies(w, manifest, op) && PutTarget(w, manifest, op) == w.peer
  {
    hide IndexedBytes;
    if op.kind == Download {
      PartOfSum(Wanted(w.peer, w.local), op.path);
    } else {
      PartOfSum(Wanted(w.local, w.peer), op.path);
    }
  }

  lemma DownloadGains(w: World, op: Operation, remote: FileRecord)
    requires InStep(w) && op.path in Wanted(w.peer, w.local) && Describes(remote, w.peer.disk[op.path])
    ensures Gained(w.peer, w.local, op.path, Downloaded(w, op, remote))
  {
    hide IndexedBytes, Agrees;
    var content := w.peer.disk[op.path];
    var record := Available(File, remote.size, Some(Blake3(content)), remote.generation, w.local.id);
    UpsertBytes(w.local, op.path, content, record);
    SameFolderFacts(w.local.WithFile(op.path, content, record), Downloaded(w, op, remote));
  }

  lemma UploadGains(w: World, op: Operation)
    requires InStep(w) && op.path in Wanted(w.local, w.peer)
    ensures Gained(w.local, w.peer, op.path, Uploaded(w.peer, op.path, w.local.disk[op.path]))
  {
    hide IndexedBytes, Agrees;
    var content := w.local.disk[op.path];
    UpsertBytes(w.peer, op.path, content, Available(File, |content|, Some(Blake3(content)), 1, w.peer.id));
  }

  lemma OnlyQueueChanged(a: Device, b: Device)
    requires SameFolder(a, b)
    ensures SameKeys(a, b)
  {
  }

  /** What a ready operation does to the two devices. */
  ghost predicate Carried(w: World, op: Operation, after: World) {
    if op.kind == Download then SameKeys(after.peer, w.peer) && Gained(w.peer, w.local, op.path, after.local)
    else SameKeys(after.local, w.local) && Gained(w.local, w.peer, op.path, after.peer)
  }

  lemma ReadyDownloadIsCarried(w: World, channel: Channel, manifest: Manifest, op: Operation)
    requires InStep(w) && Room(w) && channel.aead.Correct() && Ready(w, manifest, op) && op.kind == Download
    ensures var o := DownloadOperation(w, channel, manifest, op); o.result.Ok? && Carried(w, op, o.world)
  {
    ReadyApplies(w, manifest, op);
    DownloadFacts(w, channel, manifest, op);
    DownloadGains(w, op, manifest.files[op.path]);
    RescanKeepsKeys(w.peer);
    hide DownloadOperation, InStep, IndexedBytes, Scan, DownloadApplies, Downloaded, CheckRemote, Room, Wanted, Gained;
  }

  lemma ReadyUploadIsCarried(w: World, channel: Channel, manifest: Manifest, op: Operation)
    requires InStep(w) && Room(w) && channel.aead.Correct() && Ready(w, manifest, op) && op.kind != Download
    ensures var o := UploadOperation(w, channel, manifest, op); o.result.Ok? && Carried(w, op, o.world)
  {
    hide UploadOperation, InStep, IndexedBytes, UploadApplies, PutTarget, Uploaded, Room, Wanted, Gained;
    ReadyApplies(w, manifest, op);
    UploadFacts(w, channel, manifest, op);
    UploadGains(w, op);
    OnlyQueueChanged(UploadOperation(w, channel, manifest, op).world.local, w.local);
  }

  /** The queue of the acting device plays no part in either notion. */
  lemma QueueDoesNotMatter(v: World, w: World, manifest: Manifest, op: Operation)
    requires SameFolder(v.local, w.local) && v.peer == w.peer
    ensures InStep(v) == InStep(w) && Room(v) == Room(w) && Ready(v, manifest, op) == Ready(w, manifest, op)
  {
    hide IndexedBytes, Agrees, Sums.Sum;
    OnlyQueueChanged(v.local, w.local);
    SameFolderFacts(v.local, w.local);
    SameKeysSameBacklog(v, w);
  }

  lemma QueueDoesNotMatterAfter(v: World, w: World, op: Operation, after: World)
    requires SameFolder(v.local, w.local) && v.peer == w.peer
    ensures Carried(v, op, after) == Carried(w, op, after)
  {
    hide IndexedBytes;
    OnlyQueueChanged(v.local, w.local);
  }

  lemma ReadyIsCarried(w: World, channel: Channel, manifest: Manifest, op: Operation)
    requires InStep(w) && Room(w) && channel.aead.Correct() && Ready(w, manifest, op)
    ensures var o := ExecuteOne(w, channel, manifest, op); o.result.Ok? && Carried(w, op, o.world)
  {
    hide DownloadOperation, UploadOperation, InStep, Room, Ready, Carried;
    var v := w.WithOperations(MarkStarted(w.Operations(), op.id));
    QueueDoesNotMatter(v, w, manifest, op);
    QueueDoesNotMatterAfter(v, w, op, ExecuteOne(w, channel, manifest, op).world);
    if op.kind == Download {
      ReadyDownloadIsCarried(v, channel, manifest, op);
    } else {
      ReadyUploadIsCarried(v, channel, manifest, op);
    }
  }

  lemma CarriedShrinksBacklog(w: World, manifest: Manifest, op: Operation, after: World)
    requires InStep(w) && Ready(w, manifest, op) && Carried(w, op, after)
    ensures Backlog(after) == Backlog(w) - 1 && (Room(after) <==> Room(w))
  {
    hide IndexedBytes, Wanted, Fits;
    if op.kind == Download {
      ArrivalShrinksBacklog(w.peer, w.local, op.path, after.peer, after.local);
    } else {
      ArrivalShrinksBacklog(w.local, w.peer, op.path, after.local, after.peer);
    }
  }

  /** Operations on other paths stay ready. */
  lemma OthersStayReady(w: World, manifest: Manifest, op: Operation, after: World, other: Operation)
    requires Ready(w, manifest, other) && Carried(w, op, after) && other.path != op.path
    ensures Ready(after, manifest, other)
  {
    hide IndexedBytes;
  }

  ghost predicate DistinctPaths(ops: seq<Operation>) {
    forall i, j :: 0 <= i < j < |ops| ==> ops[i].path != ops[j].path
  }

  ghost predicate ReadyFrom(w: World, manifest: Manifest, ops: seq<Operation>, n: nat) {
    forall k :: n <= k < |ops| ==> Ready(w, manifest, ops[k])
  }

  /** The first `n` paths hold the same bytes on both devices. */
  ghost predicate EqualUpTo(w: World, ops: seq<Operation>, n: nat)
    requires n <= |ops|
  {
    forall k :: 0 <= k < n ==>
      ops[k].path in w.local.disk && ops[k].path in w.peer.disk && w.local.disk[ops[k].path] == w.peer.disk[ops[k].path]
  }

  lemma CarriedKeepsEqual(w: World, manifest: Manifest, ops: seq<Operation>, n: nat, after: World)
    requires n < |ops| && EqualUpTo(w, ops, n) && Carried(w, ops[n], after)
    ensures EqualUpTo(after, ops, n + 1)
  {
    hide IndexedBytes;
  }

  lemma CarriedIsProgress(w: World, manifest: Manifest, op: Operation, after: World)
    requires InStep(w) && Ready(w, manifest, op) && Carried(w, op, after)
    ensures Progress(w, after)
  {
    hide IndexedBytes;
  }

  /** A batch of ready operations on distinct paths completes without a failure. */
  lemma {:induction false} ReadyBatch(w: World, channel: Channel, manifest: Manifest, ops: seq<Operation>, n: nat)
    requires n <= |ops| && InStep(w) && Room(w) && channel.aead.Correct()
    requires LawfulTransfers(ops) && DistinctPaths(ops) && ReadyFrom(w, manifest, ops, 0)
    ensures var b := ExecuteFirst(w, channel, manifest, ops, n);
      && b.completed == n && b.failed == 0
      && InStep(b.world) && Room(b.world)
      && Backlog(b.world) == Backlog(w) - n
      && ReadyFrom(b.world, manifest, ops, n)
      && EqualUpTo(b.world, ops, n)
      && Progress(w, b.world)
  {
    hide InStep, Room, Backlog, Ready, Carried, ExecuteOne, LawfulTransfers, Progress;
    if n == 0 {
      ProgressSteps(w, w, w);
    } else {
      ReadyBatch(w, channel, manifest, ops, n - 1);
      var b := ExecuteFirst(w, channel, manifest, ops, n - 1).world;
      BatchGuarantees(w, channel, manifest, ops, n);
      var op := ops[n - 1];
      ReadyIsCarried(b, channel, manifest, op);
      var c := ExecuteOne(b, channel, manifest, op).world;
      CarriedShrinksBacklog(b, manifest, op, c);
      CarriedKeepsEqual(b, manifest, ops, n - 1, c);
      CarriedIsProgress(b, manifest, op, c);
      ProgressSteps(w, b, c);
      forall k | n <= k < |ops| ensures Ready(c, manifest, ops[k]) {
        OthersStayReady(b, manifest, op, c, ops[k]);
      }
    }
  }
}
