/** The folder database as the agent uses it: a files table, a skipped_files
    table and a sync_operations table that its methods update in place. Each
    method is proved against the value it makes of the tables. */
module StateDb {
  import opened Wrappers
  import opened Domain
  import opened StateTables
  import Devices
  import Ordering
  import Sums

  datatype FolderStatus = FolderStatus(
    indexedFiles: nat,
    indexedBytes: nat,
    localAvailable: nat,
    localMissing: nat,
    pendingUpload: nat,
    pendingDownload: nat,
    skippedLimit: nat)
  {
    function Of(state: FileSyncState): nat {
      match state
      case LocalAvailable => localAvailable
      case UnsynchronizedLocalMissing => localMissing
      case PendingUpload => pendingUpload
      case PendingDownload => pendingDownload
      case SkippedFolderLimit => skippedLimit
    }

    function Add(state: FileSyncState): FolderStatus {
      match state
      case LocalAvailable => this.(localAvailable := localAvailable + 1)
      case UnsynchronizedLocalMissing => this.(localMissing := localMissing + 1)
      case PendingUpload => this.(pendingUpload := pendingUpload + 1)
      case PendingDownload => this.(pendingDownload := pendingDownload + 1)
      case SkippedFolderLimit => this.(skippedLimit := skippedLimit + 1)
    }
  }

  datatype QueueStatus = QueueStatus(
    total: nat,
    pending: nat,
    blocked: nat,
    done: nat,
    failed: nat,
    upload: nat,
    download: nat,
    resolveConflict: nat,
    repairLocalMissing: nat,
    repairRemoteMissing: nat,
    blockedByMode: nat)
  {
    function OfStatus(status: OperationStatus): nat {
      match status
      case Pending => pending
      case Blocked => blocked
      case Done => done
      case Failed => failed
    }

    function OfKind(kind: OperationKind): nat {
      match kind
      case Upload => upload
      case Download => download
      case ResolveConflict => resolveConflict
      case RepairLocalMissing => repairLocalMissing
      case RepairRemoteMissing => repairRemoteMissing
      case BlockedByMode => blockedByMode
    }

    /** Each field by its name. */
    predicate CountsByName(ops: seq<Operation>) {
      && pending == CountStatus(ops, |ops|, Pending) && blocked == CountStatus(ops, |ops|, Blocked)
      && done == CountStatus(ops, |ops|, Done) && failed == CountStatus(ops, |ops|, Failed)
      && upload == CountKind(ops, |ops|, Upload) && download == CountKind(ops, |ops|, Download)
      && resolveConflict == CountKind(ops, |ops|, ResolveConflict)
      && repairLocalMissing == CountKind(ops, |ops|, RepairLocalMissing)
      && repairRemoteMissing == CountKind(ops, |ops|, RepairRemoteMissing)
      && blockedByMode == CountKind(ops, |ops|, BlockedByMode)
    }

    function AddStatus(status: OperationStatus): QueueStatus {
      match status
      case Pending => this.(pending := pending + 1)
      case Blocked => this.(blocked := blocked + 1)
      case Done => this.(done := done + 1)
      case Failed => this.(failed := failed + 1)
    }

    function AddKind(kind: OperationKind): QueueStatus {
      match kind
      case Upload => this.(upload := upload + 1)
      case Download => this.(download := download + 1)
      case ResolveConflict => this.(resolveConflict := resolveConflict + 1)
      case RepairLocalMissing => this.(repairLocalMissing := repairLocalMissing + 1)
      case RepairRemoteMissing => this.(repairRemoteMissing := repairRemoteMissing + 1)
      case BlockedByMode => this.(blockedByMode := blockedByMode + 1)
    }
  }

  /** The paths of `seen` whose record is in `state`. */
  function InState(files: map<Path, FileRecord>, seen: set<Path>, state: FileSyncState): set<Path> {
    set p | p in seen && p in files && files[p].state == state
  }

  function CountStatus(ops: seq<Operation>, n: nat, status: OperationStatus): nat
    requires n <= |ops|
  {
    if n == 0 then 0 else CountStatus(ops, n - 1, status) + (if ops[n - 1].status == status then 1 else 0)
  }

  function CountKind(ops: seq<Operation>, n: nat, kind: OperationKind): nat
    requires n <= |ops|
  {
    if n == 0 then 0 else CountKind(ops, n - 1, kind) + (if ops[n - 1].kind == kind then 1 else 0)
  }

  function CountRetryable(ops: seq<Operation>, n: nat, device: Option<DeviceId>): nat
    requires n <= |ops|
  {
    if n == 0 then 0 else CountRetryable(ops, n - 1, device) + (if Retryable(ops[n - 1], device) then 1 else 0)
  }

  /** The rows named `id` have this status and this error now and are otherwise what
      they were, and no other row has changed. */
  predicate OutcomeRecorded(
    before: seq<Operation>, after: seq<Operation>, id: OperationId, status: OperationStatus, error: Option<TransferError>)
  {
    && |after| == |before|
    && (forall i :: 0 <= i < |before| && before[i].id != id ==> after[i] == before[i])
    && (forall i :: 0 <= i < |before| && before[i].id == id ==>
          && after[i].status == status && after[i].lastError == error
          && after[i].(status := before[i].status, lastError := before[i].lastError) == before[i])
  }

  /** That leaves one possible table. */
  lemma OutcomeIsSetStatus(
    before: seq<Operation>, after: seq<Operation>, id: OperationId, status: OperationStatus, error: Option<TransferError>)
    ensures OutcomeRecorded(before, after, id, status, error) <==> after == SetStatus(before, id, status, error)
  {
    if OutcomeRecorded(before, after, id, status, error) {
      forall i | 0 <= i < |before| ensures after[i] == SetStatus(before, id, status, error)[i] {
        if before[i].id == id {
          assert after[i] == before[i].(status := status, lastError := error);
        }
      }
    }
  }

  lemma StartIsMarkStarted(before: seq<Operation>, after: seq<Operation>, id: OperationId)
    requires |after| == |before|
    requires forall i :: 0 <= i < |before| && before[i].id != id ==> after[i] == before[i]
    requires forall i :: 0 <= i < |before| && before[i].id == id ==>
      after[i].lastError == None && after[i].(lastError := before[i].lastError) == before[i]
    ensures after == StateTables.MarkStarted(before, id)
  {
    forall i | 0 <= i < |before| ensures after[i] == StateTables.MarkStarted(before, id)[i] {
      if before[i].id == id {
        assert after[i] == before[i].(lastError := None);
      }
    }
  }

  /** The least of the paths that are left is the next one in order. */
  lemma SortedFrom(all: set<Path>, rest: set<Path>, n: nat)
    requires rest != {} && n < |Ordering.Sorted(all)| && Ordering.Sorted(all)[n..] == Ordering.Sorted(rest)
    ensures Ordering.Sorted(all)[n] == Ordering.Least(rest)
    ensures Ordering.Sorted(all)[n + 1..] == Ordering.Sorted(rest - {Ordering.Least(rest)})
  {
    hide Ordering.StrictlyIncreasing;
    var tail := Ordering.Sorted(all)[n..];
    assert tail[0] == Ordering.Sorted(all)[n] && tail[1..] == Ordering.Sorted(all)[n + 1..];
  }

  lemma CountedByName(status: QueueStatus, ops: seq<Operation>)
    requires forall s :: status.OfStatus(s) == CountStatus(ops, |ops|, s)
    requires forall k :: status.OfKind(k) == CountKind(ops, |ops|, k)
    ensures status.CountsByName(ops)
  {
    hide CountStatus, CountKind;
    assert status.OfStatus(Pending) == CountStatus(ops, |ops|, Pending);
    assert status.OfStatus(Blocked) == CountStatus(ops, |ops|, Blocked);
    assert status.OfStatus(Done) == CountStatus(ops, |ops|, Done);
    assert status.OfStatus(Failed) == CountStatus(ops, |ops|, Failed);
    assert status.OfKind(Upload) == CountKind(ops, |ops|, Upload);
    assert status.OfKind(Download) == CountKind(ops, |ops|, Download);
    assert status.OfKind(ResolveConflict) == CountKind(ops, |ops|, ResolveConflict);
    assert status.OfKind(RepairLocalMissing) == CountKind(ops, |ops|, RepairLocalMissing);
    assert status.OfKind(RepairRemoteMissing) == CountKind(ops, |ops|, RepairRemoteMissing);
    assert status.OfKind(BlockedByMode) == CountKind(ops, |ops|, BlockedByMode);
  }

  /** Every operation is counted once by its status and once by its kind. */
  lemma {:induction false} CountsAddUp(ops: seq<Operation>, n: nat)
    requires n <= |ops|
    ensures CountStatus(ops, n, Pending) + CountStatus(ops, n, Blocked)
          + CountStatus(ops, n, Done) + CountStatus(ops, n, Failed) == n
    ensures CountKind(ops, n, Upload) + CountKind(ops, n, Download) + CountKind(ops, n, ResolveConflict)
          + CountKind(ops, n, RepairLocalMissing) + CountKind(ops, n, RepairRemoteMissing)
          + CountKind(ops, n, BlockedByMode) == n
  {
    if n != 0 {
      CountsAddUp(ops, n - 1);
    }
  }

  /** One more record adds one to the count of its state, and to no other. */
  lemma InStateGrows(files: map<Path, FileRecord>, seen: set<Path>, p: Path, state: FileSyncState)
    requires p in files && p !in seen
    ensures |InState(files, seen + {p}, state)| == |InState(files, seen, state)| + (if files[p].state == state then 1 else 0)
  {
    if files[p].state == state {
      assert InState(files, seen + {p}, state) == InState(files, seen, state) + {p};
    } else {
      assert InState(files, seen + {p}, state) == InState(files, seen, state);
    }
  }

  function SizesOfSeen(files: map<Path, FileRecord>, seen: set<Path>): map<Path, nat> {
    map p | p in seen && p in files :: files[p].size
  }

  lemma SizesGrow(files: map<Path, FileRecord>, seen: set<Path>, p: Path)
    requires p in files && p !in seen
    ensures Sums.Sum(SizesOfSeen(files, seen + {p})) == Sums.Sum(SizesOfSeen(files, seen)) + files[p].size
  {
    Sums.SumUpdate(SizesOfSeen(files, seen), p, files[p].size);
    assert SizesOfSeen(files, seen + {p}) == SizesOfSeen(files, seen)[p := files[p].size];
  }

  /** The status counts the records of `seen` by state, and the skip list as skipped. */
  ghost predicate Counts(status: FolderStatus, files: map<Path, FileRecord>, seen: set<Path>, skipped: nat) {
    forall state :: status.Of(state) == |InState(files, seen, state)| + (if state == SkippedFolderLimit then skipped else 0)
  }

  lemma CountsGrow(status: FolderStatus, files: map<Path, FileRecord>, seen: set<Path>, skipped: nat, p: Path, size: nat)
    requires Counts(status, files, seen, skipped) && p in files && p !in seen
    ensures Counts(status.(indexedBytes := size).Add(files[p].state), files, seen + {p}, skipped)
  {
    hide InState;
    forall state {
      InStateGrows(files, seen, p, state);
    }
  }

  lemma CountsByField(status: FolderStatus, files: map<Path, FileRecord>, skipped: nat)
    requires Counts(status, files, files.Keys, skipped)
    ensures status.localAvailable == |InState(files, files.Keys, LocalAvailable)|
    ensures status.localMissing == |InState(files, files.Keys, UnsynchronizedLocalMissing)|
    ensures status.pendingUpload == |InState(files, files.Keys, PendingUpload)|
    ensures status.pendingDownload == |InState(files, files.Keys, PendingDownload)|
    ensures status.skippedLimit == |InState(files, files.Keys, SkippedFolderLimit)| + skipped
  {
    hide InState;
    assert status.Of(LocalAvailable) == |InState(files, files.Keys, LocalAvailable)|;
    assert status.Of(UnsynchronizedLocalMissing) == |InState(files, files.Keys, UnsynchronizedLocalMissing)|;
    assert status.Of(PendingUpload) == |InState(files, files.Keys, PendingUpload)|;
    assert status.Of(PendingDownload) == |InState(files, files.Keys, PendingDownload)|;
    assert status.Of(SkippedFolderLimit) == |InState(files, files.Keys, SkippedFolderLimit)| + skipped;
  }

  lemma NothingSeen(status: FolderStatus, files: map<Path, FileRecord>, skipped: nat)
    requires status == FolderStatus(|files|, 0, 0, 0, 0, 0, skipped)
    ensures Counts(status, files, {}, skipped) && Sums.Sum(SizesOfSeen(files, {})) == 0
  {
    assert SizesOfSeen(files, {}) == map[];
    assert forall state :: InState(files, {}, state) == {};
  }

  lemma AllSeen(files: map<Path, FileRecord>)
    ensures SizesOfSeen(files, files.Keys) == Devices.Sizes(files)
  {
  }

  class StateDatabase {
    var files: map<Path, FileRecord>
    var scanMissing: set<Path>
    var skipped: map<Path, nat>
    var operations: seq<Operation>
    var nextId: OperationId

    function View(): Tables
      reads this
    {
      Tables(files, scanMissing, skipped, operations, nextId)
    }

    constructor ()
      ensures View() == EmptyTables
    {
      files, scanMissing, skipped, operations, nextId := map[], {}, map[], [], 0;
    }

    method UpsertFile(path: Path, entry: FileEntry) returns (r: Result<(), CoreError>)
      modifies this
      ensures r == (if entry.size > I64_MAX then Err(FileSizeOverflow)
                    else if entry.generation > I64_MAX then Err(GenerationOverflow) else Ok(()))
      ensures r.Err? ==> View() == old(View())
      ensures r.Ok? ==> View() == Upsert(old(View()), path,
                Available(entry.kind, entry.size, entry.hash, entry.generation, entry.device))
    {
      if entry.size > I64_MAX {
        return Err(FileSizeOverflow);
      }
      if entry.generation > I64_MAX {
        return Err(GenerationOverflow);
      }
      files := files[path := FileRecord(entry.kind, entry.size, entry.hash, entry.generation, entry.device, LocalAvailable)];
      scanMissing := scanMissing - {path};
      r := Ok(());
    }

    method MarkScanStarted()
      modifies this
      ensures View() == StateTables.MarkScanStarted(old(View()))
    {
      scanMissing := scanMissing + set p | p in files && files[p].state != SkippedFolderLimit;
    }

    method FinalizeScan()
      modifies this
      ensures View() == StateTables.FinalizeScan(old(View()))
    {
      files := map p | p in files ::
        if p in scanMissing then files[p].(state := UnsynchronizedLocalMissing) else files[p];
    }

    /** The missing records with their paths, in path order. */
    method ListMissingAfterScan() returns (rows: seq<(Path, FileRecord)>)
      ensures var missing := InState(files, files.Keys, UnsynchronizedLocalMissing);
        && |rows| == |missing|
        && forall i :: 0 <= i < |rows| ==>
             rows[i].0 == Ordering.Sorted(missing)[i] && rows[i].0 in files && rows[i].1 == files[rows[i].0]
    {
      hide Ordering.Sorted, Ordering.StrictlyIncreasing;
      var rest := set p | p in files && files[p].state == UnsynchronizedLocalMissing;
      ghost var missing := InState(files, files.Keys, UnsynchronizedLocalMissing);
      assert rest == missing;
      hide InState;
      rows := [];
      while rest != {}
        invariant rest <= missing <= files.Keys
        invariant |rows| + |rest| == |missing|
        invariant Ordering.Sorted(missing)[|rows|..] == Ordering.Sorted(rest)
        invariant forall i :: 0 <= i < |rows| ==>
          rows[i].0 == Ordering.Sorted(missing)[i] && rows[i].0 in files && rows[i].1 == files[rows[i].0]
        decreases |rest|
      {
        var path := Ordering.Least(rest);
        SortedFrom(missing, rest, |rows|);
        rows := rows + [(path, files[path])];
        rest := rest - {path};
      }
    }

    method MarkFileDeletedLocally(path: Path)
      modifies this
      ensures View() == MarkDeletedLocally(old(View()), path)
      ensures files.Keys == old(files).Keys
      ensures forall p :: p in files ==>
        files[p] == old(files)[p].(state := if p == path then UnsynchronizedLocalMissing else old(files)[p].state)
    {
      if path in files {
        files := files[path := files[path].(state := UnsynchronizedLocalMissing)];
      }
    }

    method ForgetFile(path: Path)
      modifies this
      ensures View() == Forget(old(View()), path)
      ensures files == old(files) - {path} && path !in scanMissing
    {
      files := files - {path};
      scanMissing := scanMissing - {path};
    }

    method RecordSkippedFolderLimit(path: Path, size: nat) returns (r: Result<(), CoreError>)
      modifies this
      ensures r == (if size > I64_MAX then Err(FileSizeOverflow) else Ok(()))
      ensures View() == if r.Ok? then RecordSkipped(old(View()), path, size) else old(View())
      ensures r.Ok? ==> skipped == old(skipped)[path := size]
    {
      if size > I64_MAX {
        return Err(FileSizeOverflow);
      }
      skipped := skipped[path := size];
      r := Ok(());
    }

    /** Walks the records in path order, adding up sizes and counting states; the
        skip list counts as skipped from the start. */
    method Status() returns (status: FolderStatus)
      ensures status.indexedFiles == |files|
      ensures status.indexedBytes == Sums.Sum(Devices.Sizes(files))
      ensures Counts(status, files, files.Keys, |skipped|)
      ensures status.localAvailable == |InState(files, files.Keys, LocalAvailable)|
      ensures status.localMissing == |InState(files, files.Keys, UnsynchronizedLocalMissing)|
      ensures status.pendingUpload == |InState(files, files.Keys, PendingUpload)|
      ensures status.pendingDownload == |InState(files, files.Keys, PendingDownload)|
      ensures status.skippedLimit == |InState(files, files.Keys, SkippedFolderLimit)| + |skipped|
    {
      hide InState, Sums.Sum, SizesOfSeen;
      status := FolderStatus(|files|, 0, 0, 0, 0, 0, |skipped|);
      var rest := files.Keys;
      ghost var seen: set<Path> := {};
      NothingSeen(status, files, |skipped|);
      while rest != {}
        invariant seen !! rest && seen + rest == files.Keys
        invariant status.indexedFiles == |files|
        invariant status.indexedBytes == Sums.Sum(SizesOfSeen(files, seen))
        invariant Counts(status, files, seen, |skipped|)
        decreases |rest|
      {
        var path := Ordering.Least(rest);
        SizesGrow(files, seen, path);
        CountsGrow(status, files, seen, |skipped|, path, status.indexedBytes + files[path].size);
        status := status.(indexedBytes := status.indexedBytes + files[path].size).Add(files[path].state);
        rest, seen := rest - {path}, seen + {path};
      }
      AllSeen(files);
      CountsByField(status, files, |skipped|);
    }

    /** The transaction: old rows out, new rows in one by one, and nothing at all
        when a size does not fit. */
    method EnqueueSyncPlan(plan: SyncPlan, now: nat) returns (r: Result<(), CoreError>)
      modifies this
      ensures r.Ok? <==> Enqueue(old(View()), plan, now).Ok?
      ensures r.Ok? ==> View() == Enqueue(old(View()), plan, now).value
      ensures r.Err? ==> View() == old(View()) && r == Err(FileSizeOverflow)
    {
      var kept := Kept(operations, plan.remoteDevice);
      var rows: seq<Operation>, id := [], nextId;
      for i := 0 to |plan.entries|
        invariant View() == old(View()) && id == nextId + |rows|
        invariant forall k :: 0 <= k < i ==> EntryStorable(plan.entries[k])
        invariant |rows| == |Actionable(plan.entries, i)|
        invariant forall k :: 0 <= k < |rows| ==>
          && Actionable(plan.entries, i)[k].action != InSync
          && rows[k] == RowFor(Actionable(plan.entries, i)[k], plan.remoteDevice, nextId + k, now)
      {
        var entry := plan.entries[i];
        if entry.action != InSync {
          if !FitsI64(entry.localSize) || !FitsI64(entry.remoteSize) {
            assert !EntryStorable(entry);
            return Err(FileSizeOverflow);
          }
          rows := rows + [RowFor(entry, plan.remoteDevice, id, now)];
          id := id + 1;
        }
      }
      assert rows == PlanRows(plan, nextId, now);
      operations := kept + rows;
      nextId := id;
      r := Ok(());
    }

    method ListPendingOperations(peer: DeviceId, kind: OperationKind, limit: U64) returns (r: Result<seq<Operation>, CoreError>)
      ensures r == if limit > I64_MAX then Err(FileSizeOverflow) else Ok(ListPending(operations, peer, kind, limit))
    {
      if limit > I64_MAX {
        return Err(FileSizeOverflow);
      }
      var listed := Ordering.StableSort(OlderFirst, Selected(operations, peer, kind));
      r := Ok(Take(listed, limit));
    }

    /** Starting an operation clears the error of its row and changes nothing else. */
    method MarkStarted(id: OperationId)
      modifies this`operations
      ensures |operations| == |old(operations)|
      ensures forall i :: 0 <= i < |operations| && old(operations[i].id) != id ==> operations[i] == old(operations[i])
      ensures forall i :: 0 <= i < |operations| && old(operations[i].id) == id ==>
        operations[i].lastError == None && operations[i].(lastError := old(operations[i].lastError)) == old(operations[i])
    {
      operations := StateTables.MarkStarted(operations, id);
    }

    /** The row named `id` gets the status and the error; every other row stays. */
    method UpdateStatus(id: OperationId, status: OperationStatus, error: Option<TransferError>)
      modifies this`operations
      ensures OutcomeRecorded(old(operations), operations, id, status, error)
    {
      var rows: seq<Operation> := [];
      for i := 0 to |operations|
        invariant |rows| == i && operations == old(operations)
        invariant OutcomeRecorded(operations[..i], rows, id, status, error)
      {
        assert operations[..i + 1] == operations[..i] + [operations[i]];
        var row := operations[i];
        if row.id == id {
          row := row.(status := status, lastError := error);
        }
        rows := rows + [row];
      }
      assert operations[..|operations|] == operations;
      operations := rows;
    }

    method MarkDone(id: OperationId)
      modifies this`operations
      ensures OutcomeRecorded(old(operations), operations, id, Done, None)
    {
      UpdateStatus(id, Done, None);
    }

    method MarkFailed(id: OperationId, error: TransferError)
      modifies this`operations
      ensures OutcomeRecorded(old(operations), operations, id, Failed, Some(error))
    {
      UpdateStatus(id, Failed, Some(error));
    }

    /** Returns how many operations were retried. */
    method RetryFailed(device: Option<DeviceId>) returns (retried: nat)
      modifies this`operations
      ensures operations == Retry(old(operations), device)
      ensures retried == CountRetryable(old(operations), |old(operations)|, device)
    {
      var rows: seq<Operation> := [];
      retried := 0;
      for i := 0 to |operations|
        invariant |rows| == i && operations == old(operations)
        invariant retried == CountRetryable(operations, i, device)
        invariant forall k :: 0 <= k < i ==>
          rows[k] == if Retryable(operations[k], device) then Retried(operations[k]) else operations[k]
      {
        var op := operations[i];
        if op.status == Failed && op.IsTransfer() && (device.None? || op.remoteDevice == device.value) {
          op := op.(status := Pending, lastError := None, retryCount := op.retryCount + 1);
          retried := retried + 1;
        }
        rows := rows + [op];
      }
      operations := rows;
    }

    method ResolveBlocked(id: OperationId, resolution: Resolution) returns (r: Result<(), CoreError>)
      modifies this`operations
      ensures r.Ok? <==> Resolve(old(operations), id, resolution).Ok?
      ensures r.Ok? ==> operations == Resolve(old(operations), id, resolution).value
      ensures r.Err? ==> operations == old(operations) && r.error == Resolve(old(operations), id, resolution).error
    {
      var found := Find(operations, id);
      if found.None? {
        return Err(OperationNotFound);
      }
      var operation := found.value;
      if operation.status != Blocked {
        return Err(OnlyBlockedCanBeResolved);
      }
      var target;
      match (operation.kind, resolution) {
        case (ResolveConflict, TakeRemote) => target := Download;
        case (RepairLocalMissing, TakeRemote) => target := Download;
        case (ResolveConflict, TakeLocal) => target := Upload;
        case (RepairRemoteMissing, TakeLocal) => target := Upload;
        case _ => return Err(InvalidResolution);
      }
      operations := seq(|operations|, i requires 0 <= i < |operations| reads this =>
        if operations[i].id == id then Resolved(operations[i], target, resolution) else operations[i]);
      r := Ok(());
    }

    /** Counts every operation once by status and once by kind. */
    method Queue() returns (status: QueueStatus)
      ensures status.total == |operations|
      ensures forall s :: status.OfStatus(s) == CountStatus(operations, |operations|, s)
      ensures forall k :: status.OfKind(k) == CountKind(operations, |operations|, k)
      ensures status.CountsByName(operations)
    {
      status := QueueStatus(|operations|, 0, 0, 0, 0, 0, 0, 0, 0, 0, 0);
      for i := 0 to |operations|
        invariant status.total == |operations|
        invariant forall s :: status.OfStatus(s) == CountStatus(operations, i, s)
        invariant forall k :: status.OfKind(k) == CountKind(operations, i, k)
      {
        status := status.AddStatus(operations[i].status).AddKind(operations[i].kind);
      }
      CountedByName(status, operations);
    }
  }
}
