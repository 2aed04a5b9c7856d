/** The folder database as a value: what each method of `StateDatabase` makes of
    the files table, the skipped_files table and the sync_operations table
    (crates/syncer-core/src/state_db.rs). */
module StateTables {
  import opened Wrappers
  import opened Domain
  import Ordering

  /** `scanMissing` holds the paths whose scan_missing column is 1. */
  datatype Tables = Tables(
    files: map<Path, FileRecord>,
    scanMissing: set<Path>,
    skipped: map<Path, nat>,
    operations: seq<Operation>,
    nextId: OperationId)

  const EmptyTables := Tables(map[], {}, map[], [], 0)

  // ------------------------------------------------------------------
  // The files table
  // ------------------------------------------------------------------

  function Available(kind: FileKind, size: Size, hash: Option<Digest>, generation: Size, device: DeviceId): FileRecord {
    FileRecord(kind, size, hash, generation, device, LocalAvailable)
  }

  function Upsert(t: Tables, path: Path, record: FileRecord): Tables {
    t.(files := t.files[path := record], scanMissing := t.scanMissing - {path})
  }

  function MarkScanStarted(t: Tables): Tables {
    t.(scanMissing := t.scanMissing + set p | p in t.files && t.files[p].state != SkippedFolderLimit)
  }

  function FinalizeScan(t: Tables): Tables {
    t.(files := map p | p in t.files ::
      if p in t.scanMissing then t.files[p].(state := UnsynchronizedLocalMissing) else t.files[p])
  }

  function MarkDeletedLocally(t: Tables, path: Path): Tables {
    if path in t.files then
      t.(files := t.files[path := t.files[path].(state := UnsynchronizedLocalMissing)])
    else t
  }

  function Forget(t: Tables, path: Path): Tables {
    t.(files := t.files - {path}, scanMissing := t.scanMissing - {path})
  }

  function RecordSkipped(t: Tables, path: Path, size: nat): Tables {
    t.(skipped := t.skipped[path := size])
  }

  /** The record a scan writes for a file it has read. */
  function Scanned(content: Content, device: DeviceId): FileRecord {
    Available(File, |content|, Some(Blake3(content)), 1, device)
  }

  function Records(found: map<Path, Content>, device: DeviceId): (r: map<Path, FileRecord>)
    ensures r.Keys == found.Keys
  {
    map p | p in found :: Scanned(found[p], device)
  }

  /** The table after upserting every file of `found`. */
  function UpsertAll(t: Tables, found: map<Path, Content>, device: DeviceId): Tables {
    t.(files := t.files + Records(found, device), scanMissing := t.scanMissing - found.Keys)
  }

  lemma RecordsGrow(found: map<Path, Content>, path: Path, content: Content, device: DeviceId)
    ensures Records(found[path := content], device) == Records(found, device)[path := Scanned(content, device)]
  {
  }

  /** Upserting one file more. */
  lemma UpsertOneMore(t: Tables, found: map<Path, Content>, path: Path, content: Content, device: DeviceId)
    ensures UpsertAll(t, found[path := content], device)
         == Upsert(UpsertAll(t, found, device), path, Scanned(content, device))
    ensures UpsertAll(t, map[], device) == t
  {
    hide Records, Scanned;
    RecordsGrow(found, path, content, device);
    var held, added := Records(found, device), Scanned(content, device);
    assert t.files + held[path := added] == (t.files + held)[path := added];
    assert t.scanMissing - found[path := content].Keys == t.scanMissing - found.Keys - {path};
    assert t.files + Records(map[], device) == t.files;
  }

  /** A complete scan of a folder holding exactly the files `disk`. */
  function ScanTables(t: Tables, disk: map<Path, Content>, device: DeviceId): Tables {
    FinalizeScan(UpsertAll(MarkScanStarted(t), disk, device))
  }

  /** A scan that stopped with an error after it had upserted the files `seen`. */
  function AbortedScan(t: Tables, seen: map<Path, Content>, device: DeviceId): Tables {
    UpsertAll(MarkScanStarted(t), seen, device)
  }

  /** What a complete scan makes of one path. */
  lemma ScanAt(t: Tables, disk: map<Path, Content>, device: DeviceId, p: Path)
    ensures var s := ScanTables(t, disk, device);
      && (p in s.files <==> p in t.files || p in disk)
      && (p in disk ==>
            s.files[p] == FileRecord(File, |disk[p]|, Some(Blake3(disk[p])), 1, device, LocalAvailable))
      && (p in t.files && p !in disk ==>
            s.files[p] == (if t.files[p].state == SkippedFolderLimit && p !in t.scanMissing then t.files[p]
                           else t.files[p].(state := UnsynchronizedLocalMissing)))
      && (p in s.scanMissing <==>
            p !in disk && (p in t.scanMissing || (p in t.files && t.files[p].state != SkippedFolderLimit)))
  {
  }

  lemma ScanKeepsOtherTables(t: Tables, disk: map<Path, Content>, device: DeviceId)
    ensures ScanTables(t, disk, device)
         == t.(files := ScanTables(t, disk, device).files, scanMissing := ScanTables(t, disk, device).scanMissing)
  {
  }

  /** An aborted scan leaves no trace once a complete scan follows. */
  lemma AbortedScanIsRepaired(t: Tables, seen: map<Path, Content>, disk: map<Path, Content>, device: DeviceId)
    requires seen.Keys <= disk.Keys
    ensures ScanTables(AbortedScan(t, seen, device), disk, device) == ScanTables(t, disk, device)
  {
    hide ScanTables;
    var aborted := AbortedScan(t, seen, device);
    ScanKeepsOtherTables(aborted, disk, device);
    ScanKeepsOtherTables(t, disk, device);
    forall p ensures var a, b := ScanTables(aborted, disk, device), ScanTables(t, disk, device);
      && (p in a.files <==> p in b.files) && (p in a.files ==> a.files[p] == b.files[p])
      && (p in a.scanMissing <==> p in b.scanMissing)
    {
      ScanAt(aborted, disk, device, p);
      ScanAt(t, disk, device, p);
    }
  }

  // ------------------------------------------------------------------
  // The sync_operations table
  // ------------------------------------------------------------------

  function OperationForAction(action: SyncAction): Option<(OperationKind, OperationStatus)> {
    match action
    case InSync => None
    case UploadToRemote => Some((Upload, Pending))
    case DownloadFromRemote => Some((Download, Pending))
    case Conflict => Some((ResolveConflict, Blocked))
    case LocalMissingUnsynchronized => Some((RepairLocalMissing, Blocked))
    case RemoteMissingUnsynchronized => Some((RepairRemoteMissing, Blocked))
    case ModeBlocked => Some((BlockedByMode, Blocked))
  }

  predicate FitsI64(size: Option<nat>) {
    size.None? || size.value <= I64_MAX
  }

  predicate EntryStorable(e: SyncPlanEntry) {
    e.action == InSync || (FitsI64(e.localSize) && FitsI64(e.remoteSize))
  }

  predicate Storable(entries: seq<SyncPlanEntry>) {
    forall i :: 0 <= i < |entries| ==> EntryStorable(entries[i])
  }

  // Rows that a new plan for `peer` replaces.
  predicate ReplacedBy(op: Operation, peer: DeviceId) {
    op.remoteDevice == peer && (op.status == Pending || op.status == Blocked)
  }

  function Kept(ops: seq<Operation>, peer: DeviceId): seq<Operation> {
    if ops == [] then []
    else if ReplacedBy(ops[0], peer) then Kept(ops[1..], peer)
    else [ops[0]] + Kept(ops[1..], peer)
  }

  function RowFor(e: SyncPlanEntry, peer: DeviceId, id: OperationId, now: nat): Operation
    requires e.action != InSync
  {
    var (kind, status) := OperationForAction(e.action).value;
    Operation(id, e.path, kind, status, e.reason, e.localSize, e.remoteSize, e.localHash, e.remoteHash,
              peer, None, 0, now)
  }

  /** The entries of the first `n` that call for an operation. */
  function Actionable(entries: seq<SyncPlanEntry>, n: nat): seq<SyncPlanEntry>
    requires n <= |entries|
  {
    if n == 0 then []
    else if entries[n - 1].action == InSync then Actionable(entries, n - 1)
    else Actionable(entries, n - 1) + [entries[n - 1]]
  }

  lemma {:induction false} ActionableFacts(entries: seq<SyncPlanEntry>, n: nat)
    requires n <= |entries|
    ensures forall e :: e in Actionable(entries, n) <==> e in entries[..n] && e.action != InSync
  {
    if n != 0 {
      ActionableFacts(entries, n - 1);
      assert entries[..n] == entries[..n - 1] + [entries[n - 1]];
    }
  }

  /** The rows inserted for a plan, with consecutive fresh ids. */
  function Rows(entries: seq<SyncPlanEntry>, peer: DeviceId, id: OperationId, now: nat): (r: seq<Operation>)
    requires forall e :: e in entries ==> e.action != InSync
    ensures |r| == |entries|
  {
    seq(|entries|, i requires 0 <= i < |entries| => RowFor(entries[i], peer, id + i, now))
  }

  function PlanRows(plan: SyncPlan, id: OperationId, now: nat): seq<Operation> {
    ActionableFacts(plan.entries, |plan.entries|);
    Rows(Actionable(plan.entries, |plan.entries|), plan.remoteDevice, id, now)
  }

  function Enqueue(t: Tables, plan: SyncPlan, now: nat): Result<Tables, CoreError> {
    if Storable(plan.entries) then
      var rows := PlanRows(plan, t.nextId, now);
      Ok(t.(operations := Kept(t.operations, plan.remoteDevice) + rows, nextId := t.nextId + |rows|))
    else
      Err(FileSizeOverflow)
  }

  predicate Listed(op: Operation, peer: DeviceId, kind: OperationKind) {
    op.remoteDevice == peer && op.kind == kind && op.status == Pending
  }

  function Selected(ops: seq<Operation>, peer: DeviceId, kind: OperationKind): seq<Operation> {
    if ops == [] then []
    else if Listed(ops[0], peer, kind) then [ops[0]] + Selected(ops[1..], peer, kind)
    else Selected(ops[1..], peer, kind)
  }

  // ORDER BY created_at_unix, path
  predicate OlderFirst(a: Operation, b: Operation) {
    a.created < b.created || (a.created == b.created && Ordering.LexLe(a.path, b.path))
  }

  function Take(ops: seq<Operation>, limit: nat): seq<Operation> {
    ops[..Min(limit, |ops|)]
  }

  /** The pending operations of one kind for one peer, oldest first. */
  function ListPending(ops: seq<Operation>, peer: DeviceId, kind: OperationKind, limit: nat): seq<Operation> {
    Take(Ordering.StableSort(OlderFirst, Selected(ops, peer, kind)), limit)
  }

  function Started(op: Operation): Operation {
    op.(lastError := None)
  }

  function MarkStarted(ops: seq<Operation>, id: OperationId): (r: seq<Operation>)
    ensures |r| == |ops|
  {
    seq(|ops|, i requires 0 <= i < |ops| => if ops[i].id == id then Started(ops[i]) else ops[i])
  }

  function SetStatus(ops: seq<Operation>, id: OperationId, status: OperationStatus, error: Option<TransferError>): (r: seq<Operation>)
    ensures |r| == |ops|
  {
    seq(|ops|, i requires 0 <= i < |ops| =>
      if ops[i].id == id then ops[i].(status := status, lastError := error) else ops[i])
  }

  predicate Retryable(op: Operation, peer: Option<DeviceId>) {
    op.status == Failed && op.IsTransfer() && (peer.None? || op.remoteDevice == peer.value)
  }

  function Retried(op: Operation): Operation {
    op.(status := Pending, lastError := None, retryCount := op.retryCount + 1)
  }

  function Retry(ops: seq<Operation>, peer: Option<DeviceId>): (r: seq<Operation>)
    ensures |r| == |ops|
  {
    seq(|ops|, i requires 0 <= i < |ops| => if Retryable(ops[i], peer) then Retried(ops[i]) else ops[i])
  }

  function Find(ops: seq<Operation>, id: OperationId): (r: Option<Operation>)
    ensures r.Some? ==> r.value in ops && r.value.id == id
    ensures r.None? ==> forall op :: op in ops ==> op.id != id
  {
    if ops == [] then None
    else if ops[0].id == id then Some(ops[0])
    else Find(ops[1..], id)
  }

  function ResolvedKind(kind: OperationKind, resolution: Resolution): Option<OperationKind> {
    match (kind, resolution)
    case (ResolveConflict, TakeRemote) => Some(Download)
    case (RepairLocalMissing, TakeRemote) => Some(Download)
    case (ResolveConflict, TakeLocal) => Some(Upload)
    case (RepairRemoteMissing, TakeLocal) => Some(Upload)
    case _ => None
  }

  function ResolutionReason(resolution: Resolution): Reason {
    match resolution
    case TakeRemote => UserSelectedRemote
    case TakeLocal => UserSelectedLocal
  }

  function Resolved(op: Operation, kind: OperationKind, resolution: Resolution): Operation {
    op.(kind := kind, status := Pending, reason := ResolutionReason(resolution), lastError := None)
  }

  function Resolve(ops: seq<Operation>, id: OperationId, resolution: Resolution): Result<seq<Operation>, CoreError> {
    match Find(ops, id)
    case None => Err(OperationNotFound)
    case Some(op) =>
      if op.status != Blocked then Err(OnlyBlockedCanBeResolved)
      else match ResolvedKind(op.kind, resolution)
        case None => Err(InvalidResolution)
        case Some(kind) =>
          Ok(seq(|ops|, i requires 0 <= i < |ops| =>
            if ops[i].id == id then Resolved(ops[i], kind, resolution) else ops[i]))
  }
}
