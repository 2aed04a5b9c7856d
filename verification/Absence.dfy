/** A file that was deleted on one device alone, or removed outside the agent, does not come
    back by itself: its record keeps every plan from fetching or sending it again
    (crates/syncer-agent/src/main.rs:614-660; crates/syncer-core/src/planning.rs:156-255). */
module Absence {
  import opened Wrappers
  import opened Domain
  import opened StateTables
  import opened Devices
  import opened PeerCrypto
  import opened PeerServer
  import opened SyncEngine
  import opened Transfers
  import opened Runs
  import opened Reachability
  import opened Effects
  import opened Interleaving
  import opened Jobs
  import opened Invariants
  import Planning
  import QueueMachine
  import QueueRows

  // ------------------------------------------------------------------
  // What keeps a file away
  // ------------------------------------------------------------------

  /** There is no file at `p`, but this record of one, whatever its state. */
  predicate Remembers(d: Device, p: Path, record: FileRecord) {
    p !in d.disk && p in d.tables.files && d.tables.files[p].(state := record.state) == record
  }

  /** The transfer would put a file at `p`: a download of the device itself, or an upload
      of its peer. */
  predicate Restores(op: Operation, own: bool, p: Path) {
    op.path == p && op.kind == (if own then Download else Upload)
  }

  predicate RowsSpare(ops: seq<Operation>, own: bool, p: Path) {
    forall i :: 0 <= i < |ops| ==> !Restores(ops[i], own, p)
  }

  /** A job that holds no such transfer, and no manifest of the device without the path. */
  predicate StageSpares(stage: Stage, own: bool, p: Path) {
    match stage
    case PlanScanned(mine) => own ==> p in mine.files
    case PlanFetched(mine, theirs) => if own then p in mine.files else p in theirs.files
    case Running(_, todo) => RowsSpare(todo, own, p)
    case _ => true
  }

  ghost predicate JobsSpare(s: System, byLocal: bool, p: Path) {
    forall j :: 0 <= j < |s.jobs| ==> StageSpares(s.jobs[j].stage, s.jobs[j].byLocal == byLocal, p)
  }

  predicate QueuesSpare(w: World, byLocal: bool, p: Path) {
    RowsSpare(w.local.tables.operations, byLocal, p) && RowsSpare(w.peer.tables.operations, !byLocal, p)
  }

  ghost predicate StaysAway(s: System, byLocal: bool, p: Path, record: FileRecord) {
    Remembers(Side(s.world, byLocal), p, record) && QueuesSpare(s.world, byLocal, p) && JobsSpare(s, byLocal, p)
  }

  /** The row with this id is about another path. */
  predicate IsAboutOthers(ops: seq<Operation>, id: OperationId, p: Path) {
    forall i :: 0 <= i < |ops| && ops[i].id == id ==> ops[i].path != p
  }

  /** The move is no edit of the device at the path, no propagated deletion of it by the
      device, and no resolution of a row about it by either user. */
  predicate LeavesAway(w: World, m: Move, byLocal: bool, p: Path) {
    m.Do? ==>
      match m.command
      case Edit(name, _) => m.byLocal == byLocal ==> name != p
      case Delete(path, scope) => m.byLocal == byLocal && path == p ==> scope == LocalOnly
      case ResolveBlocked(id, _) => IsAboutOthers(Side(w, m.byLocal).tables.operations, id, p)
      case _ => true
  }

  // ------------------------------------------------------------------
  // The device
  // ------------------------------------------------------------------

  lemma ScanRemembers(d: Device, p: Path, record: FileRecord)
    requires Sound(d) && Remembers(d, p, record)
    ensures Remembers(Scan(d), p, record)
  {
    ScanAt(d.tables, d.disk, d.id, p);
    ScanChangesTheIndexOnly(d);
    hide ScanTables;
  }

  lemma RemovedElsewhere(d: Device, path: Path, p: Path, record: FileRecord)
    requires Remembers(d, p, record)
    ensures path != p ==> Remembers(Removed(d, path), p, record)
    ensures Remembers(Unlinked(d, path), p, record) && Remembers(MarkedMissing(d, path), p, record)
  {
  }

  lemma ClearedElsewhere(d: Device, path: Path, p: Path, record: FileRecord)
    requires Sound(d) && Remembers(d, p, record) && path != p
    ensures Remembers(Cleared(d, path), p, record)
  {
    hide Scan, Remembers, Removed;
    ScanRemembers(d, p, record);
    RemovedElsewhere(Scan(d), path, p, record);
  }

  lemma GainedElsewhere(before: Device, path: Path, after: Device, p: Path, record: FileRecord)
    requires Remembers(before, p, record) && Gains(before, path, after) && path != p
    ensures Remembers(after, p, record)
  {
    hide Remaining;
  }

  /** What the device's own operation, or one of its peer, leaves. */
  lemma LocalRemembers(local: Device, manifest: Manifest, op: Operation, after: Device, p: Path, record: FileRecord)
    requires LocalShape(local, manifest, op, after) && Remembers(local, p, record) && !Restores(op, true, p)
    ensures Remembers(after, p, record)
  {
    SkippedOnly(local, manifest, op);
    hide SkippedIfFull, Gains;
    if op.kind == Download && op.path != p && Gains(local, op.path, after) {
      GainedElsewhere(local, op.path, after, p, record);
    }
  }

  lemma PeerRemembers(peer: Device, op: Operation, sent: bool, after: Device, p: Path, record: FileRecord)
    requires PeerShape(peer, op, sent, after) && Sound(peer) && Remembers(peer, p, record) && op.path != p
    ensures Remembers(after, p, record)
  {
    hide Gains, Scan, Cleared, Sound;
    ScanRemembers(peer, p, record);
    ClearedElsewhere(peer, op.path, p, record);
    if sent && Fills(peer, op.path, after) {
      GainedElsewhere(peer, op.path, after, p, record);
    } else if sent && Fills(Cleared(peer, op.path), op.path, after) {
      GainedElsewhere(Cleared(peer, op.path), op.path, after, p, record);
    }
  }

  lemma RemembersTables(a: Device, b: Device, p: Path, record: FileRecord)
    requires a.disk == b.disk && a.tables.files == b.tables.files
    ensures Remembers(a, p, record) == Remembers(b, p, record)
  {
  }

  lemma ExecutionRemembers(w: World, channel: Channel, manifest: Manifest, op: Operation, own: bool, p: Path, record: FileRecord)
    requires channel.aead.Correct() && Sound(w.peer) && op.IsTransfer() && !Restores(op, own, p)
    requires Remembers(Side(w, own), p, record)
    ensures Remembers(Side(ExecuteOne(w, channel, manifest, op).world, own), p, record)
  {
    hide ExecuteOne, LocalShape, PeerShape, Booked, Remembers, Scan, Sound;
    ExecuteHasEffect(w, channel, manifest, op);
    var v := ExecuteOne(w, channel, manifest, op).world;
    if own {
      LocalRemembers(w.local, manifest, op, v.local.WithOperations(w.Operations()), p, record);
      RemembersTables(v.local.WithOperations(w.Operations()), v.local, p, record);
    } else if op.kind == Download {
      ScanRemembers(w.peer, p, record);
    } else {
      PeerRemembers(w.peer, op, op.path in w.local.disk, v.peer, p, record);
    }
  }

  lemma ProceedRemembers(w: World, channel: Channel, stage: Stage, now: nat, limit: U64, own: bool, p: Path, record: FileRecord)
    requires WorldInv(w) && JobInv(QueueOf(w.local), stage) && channel.aead.Correct()
    requires Remembers(Side(w, own), p, record) && StageSpares(stage, own, p)
    ensures Remembers(Side(Proceed(w, channel, stage, now, limit).world, own), p, record)
  {
    hide Remembers, Scan, ExecuteOne, Enqueue, ListFor, QueueMachine.Inv, Sound, Planning.Plan, QueueMachine.Lawful;
    if stage.Running? && stage.todo != [] {
      assert InFlight(QueueOf(w.local), stage.todo[0]);
      ExecutionRemembers(w, channel, stage.manifest, stage.todo[0], own, p, record);
    } else {
      if !own {
        ScanRemembers(w.peer, p, record);
      }
      if stage.PlanFetched? {
        var plan := Planning.Plan(stage.mine, stage.theirs, w.local.mode);
        if Enqueue(w.local.tables, plan, now).Ok? {
          EnqueueKeepsFiles(w.local.tables, plan, now);
          RemembersTables(w.local, w.local.(tables := Enqueue(w.local.tables, plan, now).value), p, record);
        }
      }
    }
  }

  lemma EnqueueKeepsFiles(t: Tables, plan: SyncPlan, now: nat)
    requires Enqueue(t, plan, now).Ok?
    ensures Enqueue(t, plan, now).value.files == t.files
  {
    hide PlanRows, Kept, Storable;
  }

  lemma PerformRemembers(w: World, c: Command, own: bool, p: Path, record: FileRecord)
    requires Sound(w.local) && Sound(w.peer) && Remembers(Side(w, own), p, record)
    requires own && c.Edit? ==> c.name != p
    requires own && c.Delete? && c.path == p ==> c.scope == LocalOnly
    ensures Remembers(Side(Perform(w, c), own), p, record)
  {
    hide Sound, Scan, Resolve, Retry, Cleared, Unlinked, MarkedMissing, Removed;
    match c
    case ScanFolder =>
      if own {
        ScanRemembers(w.local, p, record);
      }
    case Delete(path, scope) =>
      DeleteRemembers(w, path, scope, own, p, record);
    case _ =>
  }

  lemma DeleteRemembers(w: World, path: Path, scope: DeleteScope, own: bool, p: Path, record: FileRecord)
    requires Sound(w.local) && Sound(w.peer) && Remembers(Side(w, own), p, record)
    requires own && path == p ==> scope == LocalOnly
    ensures Remembers(Side(DeleteFile(w, path, scope).world, own), p, record)
  {
    hide Sound, Scan, Cleared, Remembers, ServeDelete;
    if own {
      RemovedElsewhere(w.local, path, p, record);
    } else {
      hide DeleteFile;
      DeleteCases(w, path, scope);
      ScanRemembers(w.peer, p, record);
      if path != p {
        ClearedElsewhere(w.peer, path, p, record);
      } else {
        NotThere(w.peer, p, record);
      }
    }
  }

  lemma NotThere(d: Device, p: Path, record: FileRecord)
    requires Remembers(d, p, record)
    ensures p !in d.disk
  {
  }

  // ------------------------------------------------------------------
  // The queue
  // ------------------------------------------------------------------

  lemma PlannedRowsSpare(local: Manifest, remote: Manifest, mode: FolderMode, id: OperationId, now: nat, own: bool, p: Path)
    requires if own then p in local.files else p in remote.files
    ensures RowsSpare(PlanRows(Planning.Plan(local, remote, mode), id, now), own, p)
  {
    hide Planning.Plan, PlanRows;
    QueueRows.RowsFollowManifests(local, remote, mode, id, now);
    var rows := PlanRows(Planning.Plan(local, remote, mode), id, now);
    forall i | 0 <= i < |rows| ensures !Restores(rows[i], own, p) {
      assert QueueRows.RowFollows(rows[i], local, remote, mode, id + i, now);
    }
  }

  lemma KeptRowsSpare(ops: seq<Operation>, peer: DeviceId, own: bool, p: Path)
    requires RowsSpare(ops, own, p)
    ensures RowsSpare(Kept(ops, peer), own, p)
  {
    hide Kept;
    QueueMachine.KeptFacts(ops, peer);
  }

  lemma EnqueueSpares(t: Tables, local: Manifest, remote: Manifest, mode: FolderMode, now: nat, own: bool, p: Path)
    requires RowsSpare(t.operations, own, p) && if own then p in local.files else p in remote.files
    ensures var r := Enqueue(t, Planning.Plan(local, remote, mode), now); r.Ok? ==> RowsSpare(r.value.operations, own, p)
  {
    hide Planning.Plan, PlanRows, Kept, Storable;
    PlannedRowsSpare(local, remote, mode, t.nextId, now, own, p);
    KeptRowsSpare(t.operations, Planning.Plan(local, remote, mode).remoteDevice, own, p);
  }

  lemma BookedSpares(before: seq<Operation>, op: Operation, result: Result<nat, TransferError>, after: seq<Operation>, own: bool, p: Path)
    requires Booked(before, op, result, after) && RowsSpare(before, own, p)
    ensures RowsSpare(after, own, p)
  {
  }

  lemma CommandSpares(w: World, c: Command, own: bool, p: Path)
    requires RowsSpare(w.Operations(), own, p)
    requires c.ResolveBlocked? ==> IsAboutOthers(w.Operations(), c.id, p)
    ensures RowsSpare(Perform(w, c).Operations(), own, p)
  {
    hide ServeDelete, ScanTables;
    match c
    case ScanFolder => ScanChangesTheIndexOnly(w.local);
    case Delete(path, scope) =>
    case _ =>
  }

  lemma ProceedSpares(w: World, channel: Channel, stage: Stage, now: nat, limit: U64, own: bool, p: Path)
    requires WorldInv(w) && JobInv(QueueOf(w.local), stage) && channel.aead.Correct()
    requires RowsSpare(w.Operations(), own, p) && StageSpares(stage, own, p)
    requires !own ==> p in w.peer.tables.files
    ensures var next := Proceed(w, channel, stage, now, limit);
      RowsSpare(next.world.Operations(), own, p) && StageSpares(next.stage, own, p)
  {
    hide Scan, ExecuteOne, Enqueue, ListFor, QueueMachine.Inv, Sound, Planning.Plan, InFlight, Booked, RowsSpare, Effect;
    match stage
    case PlanScanned(mine) => ScanKeepsRecords(w.peer, p);
    case PlanFetched(mine, theirs) => EnqueueSpares(w.local.tables, mine, theirs, w.local.mode, now, own, p);
    case RunFetched(manifest) => ListForSpares(w, manifest.device, limit, own, p);
    case Running(manifest, todo) =>
      if todo != [] {
        ExecuteHasEffect(w, channel, manifest, todo[0]);
        BookedSpares(w.Operations(), todo[0], ExecuteOne(w, channel, manifest, todo[0]).result,
                     ExecuteOne(w, channel, manifest, todo[0]).world.Operations(), own, p);
        TailSpares(todo, own, p);
      }
    case _ =>
  }

  lemma ScanKeepsRecords(d: Device, p: Path)
    ensures p in d.tables.files ==> p in Scan(d).tables.files
  {
    ScanAt(d.tables, d.disk, d.id, p);
  }

  lemma TailSpares(todo: seq<Operation>, own: bool, p: Path)
    requires todo != [] && RowsSpare(todo, own, p)
    ensures RowsSpare(todo[1..], own, p)
  {
  }

  lemma ListForSpares(w: World, peer: DeviceId, limit: nat, own: bool, p: Path)
    requires QueueMachine.Inv(QueueOf(w.local)) && RowsSpare(w.Operations(), own, p)
    ensures RowsSpare(ListFor(w.Operations(), peer, limit), own, p)
  {
    hide ListFor, QueueMachine.Inv, InFlight;
    ListedInFlight(QueueOf(w.local), peer, limit);
    var todo := ListFor(w.Operations(), peer, limit);
    forall i | 0 <= i < |todo| ensures !Restores(todo[i], own, p) {
      assert todo[i] in todo;
      var k :| 0 <= k < |w.Operations()| && w.Operations()[k] == todo[i];
      assert !Restores(w.Operations()[k], own, p);
    }
  }

  // ------------------------------------------------------------------
  // Any moves
  // ------------------------------------------------------------------

  lemma MoveRemembers(s: System, channel: Channel, m: Move, byLocal: bool, p: Path, record: FileRecord)
    requires Inv(s) && channel.aead.Correct() && StaysAway(s, byLocal, p, record) && LeavesAway(s.world, m, byLocal, p)
    ensures Remembers(Side(Make(s, channel, m).world, byLocal), p, record)
  {
    hide Remembers, Perform, Proceed, Scan, Sound, QueueMachine.Inv, StageSpares, QueuesSpare, JobInv;
    var here := ByLocal(s, m);
    var w := Turn(s.world, here);
    match m
    case Do(_, command) => PerformRemembers(w, command, here == byLocal, p, record);
    case StartPlan(_) => ScanRemembers(Side(s.world, byLocal), p, record);
    case StartRun(_) => ScanRemembers(Side(s.world, byLocal), p, record);
    case Advance(j, now, limit) =>
      if j < |s.jobs| {
        ProceedRemembers(w, channel, s.jobs[j].stage, now, limit, here == byLocal, p, record);
      }
  }

  lemma MoveSparesQueues(s: System, channel: Channel, m: Move, byLocal: bool, p: Path, record: FileRecord)
    requires Inv(s) && channel.aead.Correct() && StaysAway(s, byLocal, p, record) && LeavesAway(s.world, m, byLocal, p)
    ensures QueuesSpare(Make(s, channel, m).world, byLocal, p)
  {
    hide Perform, Proceed, Scan, KeepsFolder, IsQueueRun, EventsKeepMode, JobInv, Inv, RowsSpare, StageSpares, IsAboutOthers;
    var here := ByLocal(s, m);
    var w := Turn(s.world, here);
    var events := MakeFacts(s, channel, m);
    InvParts(s);
    match m
    case Do(_, command) => CommandSpares(w, command, here == byLocal, p);
    case StartPlan(_) => ScanChangesTheIndexOnly(w.local);
    case StartRun(_) => ScanChangesTheIndexOnly(w.local);
    case Advance(j, now, limit) =>
      if j < |s.jobs| {
        ProceedSpares(w, channel, s.jobs[j].stage, now, limit, here == byLocal, p);
      }
  }

  lemma InvParts(s: System)
    requires Inv(s)
    ensures WorldInv(s.world)
    ensures forall j :: 0 <= j < |s.jobs| ==> JobInv(QueueOf(Side(s.world, s.jobs[j].byLocal)), s.jobs[j].stage)
  {
  }

  lemma MoveSparesJobs(s: System, channel: Channel, m: Move, byLocal: bool, p: Path, record: FileRecord)
    requires Inv(s) && channel.aead.Correct() && StaysAway(s, byLocal, p, record)
    ensures JobsSpare(Make(s, channel, m), byLocal, p)
  {
    hide Perform, Proceed, Scan, JobInv, Inv, RowsSpare;
    InvParts(s);
    if m.Advance? && m.job < |s.jobs| {
      var here := s.jobs[m.job].byLocal;
      ProceedSpares(Turn(s.world, here), channel, s.jobs[m.job].stage, m.now, m.limit, here == byLocal, p);
    }
    ScanKeepsRecords(s.world.local, p);
    ScanKeepsRecords(s.world.peer, p);
  }

  lemma {:induction false} AwayOverMoves(s: System, channel: Channel, moves: seq<Move>, n: nat, byLocal: bool, p: Path, record: FileRecord)
    requires n <= |moves| && Inv(s) && channel.aead.Correct() && StaysAway(s, byLocal, p, record)
    requires forall k :: 0 <= k < n ==> LeavesAway(Reach(s, channel, moves, k).world, moves[k], byLocal, p)
    ensures StaysAway(Reach(s, channel, moves, n), byLocal, p, record)
  {
    hide Make, Inv, LeavesAway, Remembers, QueuesSpare, JobsSpare;
    if n != 0 {
      AwayOverMoves(s, channel, moves, n - 1, byLocal, p, record);
      ReachableInv(s, channel, moves, n - 1);
      var t := Reach(s, channel, moves, n - 1);
      MoveRemembers(t, channel, moves[n - 1], byLocal, p, record);
      MoveSparesQueues(t, channel, moves[n - 1], byLocal, p, record);
      MoveSparesJobs(t, channel, moves[n - 1], byLocal, p, record);
    }
  }

  /** The device deletes the file on this device alone, or it is removed outside the agent. */
  predicate TakesAway(m: Move, byLocal: bool, p: Path) {
    && m.Do? && m.byLocal == byLocal
    && (m.command == Delete(p, LocalOnly) || (m.command.Edit? && m.command.name == p && m.command.content == None))
  }

  lemma TakenAway(s: System, channel: Channel, m: Move, byLocal: bool, p: Path)
    requires TakesAway(m, byLocal, p) && p in Side(s.world, byLocal).tables.files
    requires s.jobs == [] && QueuesSpare(s.world, byLocal, p)
    ensures StaysAway(Make(s, channel, m), byLocal, p, Side(s.world, byLocal).tables.files[p])
  {
  }

  /** An indexed file that is deleted on one device alone, or removed there outside the
      agent, is not on that device after any further moves of both, and its record is still
      there with its kind, size and hash: unless it is edited, its deletion is propagated, or
      a row about it is resolved. No transfer that would restore it was queued before. */
  lemma DeletedStaysDeleted(s: System, channel: Channel, moves: seq<Move>, n: nat, byLocal: bool, p: Path)
    requires 0 < n <= |moves| && Inv(s) && channel.aead.Correct() && s.jobs == []
    requires p in Side(s.world, byLocal).tables.files && QueuesSpare(s.world, byLocal, p)
    requires TakesAway(moves[0], byLocal, p)
    requires forall k :: 0 < k < n ==> LeavesAway(Reach(s, channel, moves, k).world, moves[k], byLocal, p)
    ensures var before, after := Side(s.world, byLocal), Side(Reach(s, channel, moves, n).world, byLocal);
      && p !in after.disk && p in after.tables.files
      && var was, kept := before.tables.files[p], after.tables.files[p];
         kept.kind == was.kind && kept.size == was.size && kept.hash == was.hash
  {
    hide Make, Inv, LeavesAway, Reach;
    var record := Side(s.world, byLocal).tables.files[p];
    FirstMove(s, channel, moves);
    ReachableInv(s, channel, moves, 1);
    TakenAway(s, channel, moves[0], byLocal, p);
    var rest := moves[1..];
    assert moves == moves[..1] + rest;
    forall k | 0 <= k <= n - 1
      ensures Reach(s, channel, moves, k + 1) == Reach(Reach(s, channel, moves, 1), channel, rest, k)
    {
      ReachPrefix(s, channel, moves[..1], rest, 1);
      ReachOn(s, channel, moves[..1], rest, k);
    }
    AwayOverMoves(Reach(s, channel, moves, 1), channel, rest, n - 1, byLocal, p, record);
  }

  lemma FirstMove(s: System, channel: Channel, moves: seq<Move>)
    requires moves != []
    ensures Reach(s, channel, moves, 1) == Make(s, channel, moves[0])
  {
    hide Make;
    assert Reach(s, channel, moves, 0) == s;
  }
}
