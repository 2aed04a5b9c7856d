/** The rows of the queue column by column: which ones a plan inserts for two manifests,
    and what the user's commands make of a row
    (crates/syncer-core/src/state_db.rs:333-379, 516-606, 1161-1184;
    crates/syncer-core/src/planning.rs:110-272). */
module QueueRows {
  import opened Wrappers
  import opened Domain
  import opened StateTables
  import Ordering
  import Planning
  import QueueMachine

  // ------------------------------------------------------------------
  // What a plan inserts
  // ------------------------------------------------------------------

  /** The manifest has the path, and not as missing. */
  predicate Has(m: Manifest, p: Path) {
    p in m.files && m.files[p].state != UnsynchronizedLocalMissing
  }

  predicate SameFile(local: Manifest, remote: Manifest, p: Path)
    requires p in local.files && p in remote.files
  {
    local.files[p].hash == remote.files[p].hash && local.files[p].size == remote.files[p].size
  }

  /** Only the local, or only the remote side knows the path, and has it. */
  predicate OnlyLocal(local: Manifest, remote: Manifest, p: Path) {
    Has(local, p) && p !in remote.files
  }

  predicate OnlyRemote(local: Manifest, remote: Manifest, p: Path) {
    p !in local.files && Has(remote, p)
  }

  function SizeIn(m: Manifest, p: Path): Option<nat> {
    if p in m.files then Some(m.files[p].size) else None
  }

  function HashIn(m: Manifest, p: Path): Option<Digest> {
    if p in m.files then m.files[p].hash else None
  }

  /** What the manifests say of a row's kind. */
  predicate KindFollows(row: Operation, local: Manifest, remote: Manifest, mode: FolderMode) {
    var p := row.path;
    && (row.kind == RepairLocalMissing <==> Planning.MissingOn(local, p))
    && (row.kind == RepairRemoteMissing <==> !Planning.MissingOn(local, p) && Planning.MissingOn(remote, p))
    && (row.kind == ResolveConflict <==> Has(local, p) && Has(remote, p))
    && (row.kind == Upload <==> OnlyLocal(local, remote, p) && mode != DownloadOnly)
    && (row.kind == Download <==> OnlyRemote(local, remote, p) && mode != UploadOnly)
    && (row.kind == BlockedByMode <==>
          (mode == DownloadOnly && OnlyLocal(local, remote, p)) || (mode == UploadOnly && OnlyRemote(local, remote, p)))
  }

  predicate ReasonFollows(row: Operation, mode: FolderMode) {
    match row.kind
    case RepairLocalMissing => row.reason == LocalSideMissing
    case RepairRemoteMissing => row.reason == RemoteSideMissing
    case ResolveConflict => row.reason == ContentDiffers
    case Upload => row.reason == RemoteLacksFile
    case Download => row.reason == LocalLacksFile
    case BlockedByMode => row.reason == if mode == UploadOnly then FolderIsUploadOnly else FolderIsDownloadOnly
  }

  /** Every column of a planned row. */
  predicate RowFollows(row: Operation, local: Manifest, remote: Manifest, mode: FolderMode, id: OperationId, now: nat) {
    && KindFollows(row, local, remote, mode) && ReasonFollows(row, mode)
    && row.status == (if row.kind == Upload || row.kind == Download then Pending else Blocked)
    && row.localSize == SizeIn(local, row.path) && row.localHash == HashIn(local, row.path)
    && row.remoteSize == SizeIn(remote, row.path) && row.remoteHash == HashIn(remote, row.path)
    && row.id == id && row.remoteDevice == remote.device
    && row.lastError == None && row.retryCount == 0 && row.created == now
  }

  /** The two sides do not hold the same file at the path, and one of them knows it. */
  predicate CallsForWork(local: Manifest, remote: Manifest, p: Path) {
    && (p in local.files || p in remote.files)
    && !(Has(local, p) && Has(remote, p) && SameFile(local, remote, p))
  }

  lemma EntryRowFollows(local: Manifest, remote: Manifest, mode: FolderMode, p: Path, id: OperationId, now: nat)
    requires p in local.files || p in remote.files
    ensures var e := Planning.EntryFor(local, remote, mode, p);
      && (e.action != InSync <==> CallsForWork(local, remote, p))
      && (e.action != InSync ==>
            RowFor(e, remote.device, id, now).path == p
            && RowFollows(RowFor(e, remote.device, id, now), local, remote, mode, id, now))
  {
  }

  lemma RowOfPlan(local: Manifest, remote: Manifest, mode: FolderMode, id: OperationId, now: nat, i: nat)
    requires i < |PlanRows(Planning.Plan(local, remote, mode), id, now)|
    ensures var row := PlanRows(Planning.Plan(local, remote, mode), id, now)[i];
      CallsForWork(local, remote, row.path) && RowFollows(row, local, remote, mode, id + i, now)
  {
    hide Planning.Plan, Planning.EntryFor, RowFor, RowFollows, CallsForWork, PlanRows, Ordering.LexLess, Planning.InPathOrder;
    QueueMachine.PlanRowsMirrorEntries(local, remote, mode, id, now);
    var entries := Planning.Plan(local, remote, mode).entries;
    var a := Actionable(entries, |entries|);
    assert a[i] in a;
    Planning.PlanHolds(local, remote, mode, a[i]);
    EntryRowFollows(local, remote, mode, a[i].path, id + i, now);
  }

  lemma WorkHasARow(local: Manifest, remote: Manifest, mode: FolderMode, id: OperationId, now: nat, p: Path)
    requires CallsForWork(local, remote, p)
    ensures var rows := PlanRows(Planning.Plan(local, remote, mode), id, now);
      exists i :: 0 <= i < |rows| && rows[i].path == p
  {
    hide Planning.Plan, Planning.EntryFor, RowFor, RowFollows, CallsForWork, PlanRows, Ordering.LexLess, Planning.InPathOrder;
    QueueMachine.PlanRowsMirrorEntries(local, remote, mode, id, now);
    Planning.PlanCovers(local, remote, mode);
    KnownPath(local, remote, p);
    var entries := Planning.Plan(local, remote, mode).entries;
    var a, rows := Actionable(entries, |entries|), PlanRows(Planning.Plan(local, remote, mode), id, now);
    var k :| 0 <= k < |entries| && entries[k].path == p;
    EntryRowFollows(local, remote, mode, p, id, now);
    assert entries[k] in a;
    var i :| 0 <= i < |a| && a[i] == entries[k];
    EntryRowFollows(local, remote, mode, p, id + i, now);
    assert rows[i].path == p;
  }

  lemma RowsAreInOrder(local: Manifest, remote: Manifest, mode: FolderMode, id: OperationId, now: nat)
    ensures var rows := PlanRows(Planning.Plan(local, remote, mode), id, now);
      forall i, j :: 0 <= i < j < |rows| ==> Ordering.LexLess(rows[i].path, rows[j].path)
  {
    hide Planning.Plan, PlanRows, Ordering.LexLess;
    QueueMachine.PlanRowsMirrorEntries(local, remote, mode, id, now);
  }

  /** The rows of a plan: every column follows from the manifests, the ids are
      consecutive, the paths are in order, and there is a row for a path if and only if
      the path calls for work. */
  lemma RowsFollowManifests(local: Manifest, remote: Manifest, mode: FolderMode, id: OperationId, now: nat)
    ensures var rows := PlanRows(Planning.Plan(local, remote, mode), id, now);
      && (forall i :: 0 <= i < |rows| ==> RowFollows(rows[i], local, remote, mode, id + i, now))
      && (forall i, j :: 0 <= i < j < |rows| ==> Ordering.LexLess(rows[i].path, rows[j].path))
      && (forall p :: CallsForWork(local, remote, p) <==> exists i :: 0 <= i < |rows| && rows[i].path == p)
  {
    hide Planning.Plan, RowFollows, CallsForWork, PlanRows, Ordering.LexLess;
    var rows := PlanRows(Planning.Plan(local, remote, mode), id, now);
    forall i | 0 <= i < |rows|
      ensures RowFollows(rows[i], local, remote, mode, id + i, now) && CallsForWork(local, remote, rows[i].path)
    {
      RowOfPlan(local, remote, mode, id, now, i);
    }
    RowsAreInOrder(local, remote, mode, id, now);
    forall p | CallsForWork(local, remote, p) ensures exists i :: 0 <= i < |rows| && rows[i].path == p {
      WorkHasARow(local, remote, mode, id, now, p);
    }
  }

  lemma KnownPath(local: Manifest, remote: Manifest, p: Path)
    requires CallsForWork(local, remote, p)
    ensures p in local.files || p in remote.files
  {
  }

  // ------------------------------------------------------------------
  // What a plan takes out
  // ------------------------------------------------------------------

  /** Enqueueing: every pending or blocked row of the peer is one of the plan's, every
      other row is one that was there; in their old order, before the new ones. A size
      that 64 signed bits cannot hold refuses the plan as a whole. */
  lemma EnqueueReplaces(t: Tables, plan: SyncPlan, now: nat)
    ensures Enqueue(t, plan, now).Ok? <==>
      forall e :: e in plan.entries && e.action != InSync ==>
        (e.localSize.Some? ==> e.localSize.value < 0x8000_0000_0000_0000)
        && (e.remoteSize.Some? ==> e.remoteSize.value < 0x8000_0000_0000_0000)
    ensures Enqueue(t, plan, now).Ok? ==>
      var rows, after := PlanRows(plan, t.nextId, now), Enqueue(t, plan, now).value;
      && after == t.(operations := after.operations, nextId := t.nextId + |rows|)
      && (forall op: Operation :: op.remoteDevice == plan.remoteDevice && (op.status == Pending || op.status == Blocked) ==>
            (op in after.operations <==> op in rows))
      && (forall op: Operation :: !(op.remoteDevice == plan.remoteDevice && (op.status == Pending || op.status == Blocked)) ==>
            (op in after.operations <==> op in t.operations))
  {
    QueueMachine.EnqueueExact(t, plan, now);
    hide PlanRows, Kept;
    if Storable(plan.entries) {
      forall e | e in plan.entries ensures EntryStorable(e) {
        var i :| 0 <= i < |plan.entries| && plan.entries[i] == e;
      }
    }
    var rows, after := PlanRows(plan, t.nextId, now), Enqueue(t, plan, now);
    forall op: Operation ensures
      ReplacedBy(op, plan.remoteDevice) <==> op.remoteDevice == plan.remoteDevice && (op.status == Pending || op.status == Blocked)
    {
    }
  }

  // ------------------------------------------------------------------
  // What a command makes of a row
  // ------------------------------------------------------------------

  /** The row can be resolved that way: it is blocked, and the side that is to be taken
      is not the one that misses the file. */
  predicate CanResolve(op: Operation, resolution: Resolution) {
    && op.status == Blocked
    && (op.kind == ResolveConflict
        || op.kind == (if resolution == TakeRemote then RepairLocalMissing else RepairRemoteMissing))
  }

  lemma FindsTheOnly(ops: seq<Operation>, i: nat)
    requires i < |ops| && forall j, k :: 0 <= j < k < |ops| ==> ops[j].id != ops[k].id
    ensures Find(ops, ops[i].id) == Some(ops[i])
  {
    var found := Find(ops, ops[i].id);
    var k :| 0 <= k < |ops| && ops[k] == found.value;
  }

  /** Resolving succeeds if and only if the named row is there and can be resolved that
      way. Then it is a pending transfer from the side that was taken, for the same path
      and with the sizes and hashes it had; no other row changes. */
  lemma ResolveExact(ops: seq<Operation>, i: nat, resolution: Resolution)
    requires i < |ops| && forall j, k :: 0 <= j < k < |ops| ==> ops[j].id != ops[k].id
    ensures var r := Resolve(ops, ops[i].id, resolution);
      && (r.Ok? <==> CanResolve(ops[i], resolution))
      && (r.Err? ==> r.error == if ops[i].status != Blocked then OnlyBlockedCanBeResolved else InvalidResolution)
      && (r.Ok? ==>
            && |r.value| == |ops|
            && (forall j :: 0 <= j < |ops| && j != i ==> r.value[j] == ops[j])
            && r.value[i].kind == (if resolution == TakeRemote then Download else Upload)
            && r.value[i].reason == (if resolution == TakeRemote then UserSelectedRemote else UserSelectedLocal)
            && r.value[i].status == Pending && r.value[i].lastError == None
            && r.value[i] == ops[i].(kind := r.value[i].kind, reason := r.value[i].reason, status := Pending, lastError := None))
  {
    FindsTheOnly(ops, i);
  }

  lemma ResolveUnknown(ops: seq<Operation>, id: OperationId, resolution: Resolution)
    ensures Resolve(ops, id, resolution) == Err(OperationNotFound) <==> forall op :: op in ops ==> op.id != id
  {
  }

  /** Retrying: a failed transfer, of the named device or of any, is pending again with
      one more retry; every other row, and so every row of another device, stays. */
  lemma RetryExact(ops: seq<Operation>, device: Option<DeviceId>, i: nat)
    requires i < |ops|
    ensures var op, after := ops[i], Retry(ops, device);
      && |after| == |ops|
      && after[i] == (if op.status == Failed && (op.kind == Upload || op.kind == Download)
                         && (device == None || device == Some(op.remoteDevice))
                      then op.(status := Pending, lastError := None, retryCount := op.retryCount + 1) else op)
  {
  }
}
