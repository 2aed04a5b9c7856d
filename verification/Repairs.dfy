/** Repairs: a file that one side misses is put back from the other side once the user
    chooses that side (crates/syncer-core/src/state_db.rs:554-606, 1161-1184;
    crates/syncer-agent/src/main.rs:863-1068). */
module Repairs {
  import opened Wrappers
  import opened Domain
  import opened StateTables
  import opened Devices
  import opened PeerCrypto
  import opened PeerServer
  import opened SyncEngine
  import opened Transfers
  import opened Runs
  import opened Effects
  import opened Interleaving
  import opened Jobs
  import opened QueueRows
  import opened Losses
  import Ordering
  import Planning
  import RelativePaths
  import Sums

  // ------------------------------------------------------------------
  // A resolved row of the plan, between any two folders
  // ------------------------------------------------------------------

  /** A blocked row as the plan for two agreeing devices has it. */
  ghost predicate IsPlanned(w: World, row: Operation) {
    exists mode, now :: RowFollows(row, ManifestOf(w.local), ManifestOf(w.peer), mode, row.id, now)
  }

  function Taken(row: Operation, resolution: Resolution): Operation {
    row.(kind := if resolution == TakeRemote then Download else Upload, status := Pending, lastError := None,
         reason := if resolution == TakeRemote then UserSelectedRemote else UserSelectedLocal)
  }

  /** Taking the peer's side of a conflict or of a file missing here: the peer's file comes
      here if and only if the peer has it and it fits. */
  lemma TakingRemote(w: World, channel: Channel, row: Operation)
    requires InStep(w) && channel.aead.Correct() && IsPlanned(w, row) && CanResolve(row, TakeRemote)
    ensures var o := ExecuteOne(w, channel, ManifestOf(w.peer), Taken(row, TakeRemote));
      && (o.result.Ok? <==> row.path in w.peer.disk && |w.peer.disk[row.path]| <= Remaining(w.local))
      && o.world.peer.disk == w.peer.disk
      && o.world.local.disk == (if o.result.Ok? then w.local.disk[row.path := w.peer.disk[row.path]] else w.local.disk)
  {
    hide DownloadOperation, Remaining, PlainNames;
    var op := Taken(row, TakeRemote);
    var started := w.WithOperations(MarkStarted(w.Operations(), op.id));
    SameFolderFacts(started.local, w.local);
    SameRoom(w.local, MarkStarted(w.Operations(), op.id));
    DownloadFacts(started, channel, ManifestOf(w.peer), op);
    ScanChangesTheIndexOnly(w.peer);
    hide ScanTables;
  }

  /** Taking the own side of a file missing at the peer: the file goes there if and only if
      it is here and fits. */
  lemma TakingLocal(w: World, channel: Channel, row: Operation)
    requires InStep(w) && channel.aead.Correct() && IsPlanned(w, row)
    requires CanResolve(row, TakeLocal) && row.kind == RepairRemoteMissing
    ensures var o := ExecuteOne(w, channel, ManifestOf(w.peer), Taken(row, TakeLocal));
      && (o.result.Ok? <==> row.path in w.local.disk && |w.local.disk[row.path]| <= Remaining(w.peer))
      && o.world.local.disk == w.local.disk
      && o.world.peer.disk == (if o.result.Ok? then w.peer.disk[row.path := w.local.disk[row.path]] else w.peer.disk)
  {
    hide UploadOperation, Remaining, PlainNames;
    var op := Taken(row, TakeLocal);
    var started := w.WithOperations(MarkStarted(w.Operations(), op.id));
    SameFolderFacts(started.local, w.local);
    UploadFacts(started, channel, ManifestOf(w.peer), op);
    ScanChangesTheIndexOnly(w.peer);
    hide ScanTables;
  }

  // ------------------------------------------------------------------
  // The whole repair, move by move
  // ------------------------------------------------------------------

  /** The file is removed outside the agent on one of two devices; the local device plans,
      its user takes the side that still has the file, and a queue run executes that. */
  function Repairing(hereGone: bool): (moves: seq<Move>)
    ensures |moves| == 9
  {
    RelativePaths.OneLetterIsPlain();
    [Do(hereGone, Edit("a", None))] + Queueing() + [Do(true, ResolveBlocked(0, TheOther(hereGone)))]
    + [StartRun(true), Advance(1, 0, 1), Advance(1, 0, 1), Advance(1, 0, 1)]
  }

  function TheOther(hereGone: bool): Resolution {
    if hereGone then TakeRemote else TakeLocal
  }

  function Without(d: Device): Device {
    d.(disk := map[])
  }

  /** Both had the file; one of them has only its record now. */
  function Damaged(mine: Content, theirs: Content, hereGone: bool): World {
    if hereGone then World(Without(Holding(1, mine)), Holding(2, theirs))
    else World(Holding(1, mine), Without(Holding(2, theirs)))
  }

  function Gone(content: Content, id: DeviceId): FileRecord {
    Scanned(content, id).(state := UnsynchronizedLocalMissing)
  }

  function RecordOf(content: Content, id: DeviceId, gone: bool): FileRecord {
    if gone then Gone(content, id) else Scanned(content, id)
  }

  lemma ScannedHolding(d: Device, content: Content, gone: bool)
    requires Sound(d) && d.tables.files.Keys == {"a"} && d.disk == (if gone then map[] else map["a" := content])
    requires d.tables.files["a"].(state := LocalAvailable) == Scanned(content, d.id)
    ensures var s := Scan(d);
      s == d.(tables := s.tables) && s.tables.files == map["a" := RecordOf(content, d.id, gone)]
      && s.tables.operations == d.tables.operations && s.tables.nextId == d.tables.nextId && Agrees(s)
  {
    ScanAt(d.tables, d.disk, d.id, "a");
    ScanChangesTheIndexOnly(d);
    ScanAgrees(d);
    hide ScanTables, RelativePaths.Plain;
  }

  lemma DamagedScans(mine: Content, theirs: Content, hereGone: bool)
    ensures var w := Damaged(mine, theirs, hereGone); var s := ScanBoth(w);
      && InStep(s) && s.local.disk == w.local.disk && s.peer.disk == w.peer.disk
      && s.local.tables.files == map["a" := RecordOf(mine, 1, hereGone)]
      && s.peer.tables.files == map["a" := RecordOf(theirs, 2, !hereGone)]
      && s.local == w.local.(tables := s.local.tables) && s.peer == w.peer.(tables := s.peer.tables)
      && s.Operations() == [] && s.local.tables.nextId == 0
  {
    hide Scan, Agrees, RelativePaths.Plain;
    HoldingAgrees(1, mine);
    HoldingAgrees(2, theirs);
    var w := Damaged(mine, theirs, hereGone);
    assert Sound(w.local) && Sound(w.peer);
    ScannedHolding(w.local, mine, hereGone);
    ScannedHolding(w.peer, theirs, !hereGone);
  }

  function RepairRow(mine: Content, theirs: Content, hereGone: bool): Operation {
    Operation(0, "a", if hereGone then RepairLocalMissing else RepairRemoteMissing, OperationStatus.Blocked,
              if hereGone then LocalSideMissing else RemoteSideMissing, Some(|mine|), Some(|theirs|),
              Some(Blake3(mine)), Some(Blake3(theirs)), 2, None, 0, 0)
  }

  /** The plan holds the repair and nothing else. */
  lemma OneRepair(local: Manifest, remote: Manifest, mine: Content, theirs: Content, hereGone: bool)
    requires local.files == map["a" := RecordOf(mine, 1, hereGone)] && remote.files == map["a" := RecordOf(theirs, 2, !hereGone)]
    requires remote.device == 2
    ensures var plan := Planning.Plan(local, remote, Bidirectional);
      Storable(plan.entries) && PlanRows(plan, 0, 0) == [RepairRow(mine, theirs, hereGone)]
  {
    hide Planning.Plan, PlanRows, Ordering.LexLess, Planning.EntryFor;
    RowsFollowManifests(local, remote, Bidirectional, 0, 0);
    var plan := Planning.Plan(local, remote, Bidirectional);
    var rows := PlanRows(plan, 0, 0);
    assert CallsForWork(local, remote, "a");
    assert forall p :: CallsForWork(local, remote, p) ==> p == "a";
    OnlyRow(rows);
    assert RowFollows(rows[0], local, remote, Bidirectional, 0, 0);
    SoleEntry(local, remote, Bidirectional, "a");
    Planning.PlanNamesPeers(local, remote, Bidirectional);
    StorableSizes(local, remote, plan);
  }

  lemma OnlyRow(rows: seq<Operation>)
    requires forall i, j :: 0 <= i < j < |rows| ==> Ordering.LexLess(rows[i].path, rows[j].path)
    requires exists i :: 0 <= i < |rows| && rows[i].path == "a"
    requires forall i :: 0 <= i < |rows| ==> rows[i].path == "a"
    ensures |rows| == 1
  {
    var ordered := |rows| > 1 && Ordering.LexLess(rows[0].path, rows[1].path);
    assert !ordered;
  }

  lemma StorableSizes(local: Manifest, remote: Manifest, plan: SyncPlan)
    requires plan.entries == [Planning.EntryFor(local, remote, Bidirectional, "a")]
    requires "a" in local.files && "a" in remote.files
    ensures Storable(plan.entries)
  {
  }

  /** What planning and resolving leave, before the queue run. */
  ghost predicate IsTaken(v: World, mine: Content, theirs: Content, hereGone: bool) {
    var w := Damaged(mine, theirs, hereGone);
    && v.Operations() == [Taken(RepairRow(mine, theirs, hereGone), TheOther(hereGone))]
    && v.local.disk == w.local.disk && v.peer.disk == w.peer.disk
    && v.local == w.local.(tables := v.local.tables) && v.peer == w.peer.(tables := v.peer.tables)
    && v.local.tables.files == map["a" := RecordOf(mine, 1, hereGone)]
    && v.peer.tables.files == map["a" := RecordOf(theirs, 2, !hereGone)]
  }

  lemma ResolvesTheRepair(mine: Content, theirs: Content, hereGone: bool)
    ensures Resolve([RepairRow(mine, theirs, hereGone)], 0, TheOther(hereGone))
         == Ok([Taken(RepairRow(mine, theirs, hereGone), TheOther(hereGone))])
  {
    hide Resolve;
    var rows := [RepairRow(mine, theirs, hereGone)];
    assert CanResolve(rows[0], TheOther(hereGone));
    ResolveExact(rows, 0, TheOther(hereGone));
    var r := Resolve(rows, rows[0].id, TheOther(hereGone)).value;
    assert r[0] == Taken(rows[0], TheOther(hereGone));
    assert r == [r[0]];
  }

  lemma PlannedRepair(mine: Content, theirs: Content, hereGone: bool)
    ensures var w, v := Damaged(mine, theirs, hereGone), EnqueuePlan(Damaged(mine, theirs, hereGone), 0).world;
      && v.Operations() == [RepairRow(mine, theirs, hereGone)]
      && IsTaken(v.WithOperations([Taken(RepairRow(mine, theirs, hereGone), TheOther(hereGone))]), mine, theirs, hereGone)
  {
    hide Scan, PlanRows, Planning.Plan, Storable;
    DamagedScans(mine, theirs, hereGone);
    var s := ScanBoth(Damaged(mine, theirs, hereGone));
    OneRepair(ManifestOf(s.local), ManifestOf(s.peer), mine, theirs, hereGone);
  }

  lemma FileIsGone(mine: Content, theirs: Content, hereGone: bool, channel: Channel)
    ensures Make(Idle(Differing(mine, theirs)), channel, Repairing(hereGone)[0]) == Idle(Damaged(mine, theirs, hereGone))
  {
    assert map["a" := mine] - {"a"} == map[] && map["a" := theirs] - {"a"} == map[];
  }

  lemma TakenState(mine: Content, theirs: Content, hereGone: bool, channel: Channel)
    ensures var s := Reach(Idle(Differing(mine, theirs)), channel, Repairing(hereGone), 5);
      IsTaken(s.world, mine, theirs, hereGone) && s.jobs == [Job(true, Stage.Finished)]
  {
    hide Scan, EnqueuePlan, IsTaken, Resolve;
    var s, moves := Idle(Differing(mine, theirs)), Repairing(hereGone);
    var one := Idle(Damaged(mine, theirs, hereGone));
    FileIsGone(mine, theirs, hereGone, channel);
    assert Reach(s, channel, moves, 0) == s && Reach(s, channel, moves, 1) == one;
    assert moves == moves[..1] + (Queueing() + moves[4..]);
    ReachPrefix(s, channel, moves[..1], Queueing() + moves[4..], 1);
    ReachOn(s, channel, moves[..1], Queueing() + moves[4..], 3);
    ReachPrefix(one, channel, Queueing(), moves[4..], 3);
    assert PlanMoves(one, true, 0) == Queueing();
    PlanInOnePiece(one, channel, true, 0);
    PlannedRepair(mine, theirs, hereGone);
    ResolvesTheRepair(mine, theirs, hereGone);
    assert moves[4] == Do(true, ResolveBlocked(0, TheOther(hereGone)));
  }

  lemma ScannedTaken(v: World, mine: Content, theirs: Content, hereGone: bool)
    requires IsTaken(v, mine, theirs, hereGone)
    ensures var s := ScanBoth(v); var row := RepairRow(mine, theirs, hereGone);
      && InStep(s) && IsPlanned(s, row) && RunList(s, 1) == [Taken(row, TheOther(hereGone))]
      && s.local.disk == v.local.disk && s.peer.disk == v.peer.disk
      && IndexedBytes(s.local) == |mine| && IndexedBytes(s.peer) == |theirs|
      && s.local.maxBytes == s.peer.maxBytes == 2 * I64_MAX
  {
    hide Scan, Agrees, ListPending, RelativePaths.Plain, IndexedBytes, RowFollows;
    RelativePaths.OneLetterIsPlain();
    assert Sound(v.local) && Sound(v.peer);
    ScannedHolding(v.local, mine, hereGone);
    ScannedHolding(v.peer, theirs, !hereGone);
    var s, row := ScanBoth(v), RepairRow(mine, theirs, hereGone);
    OneListed(Taken(row, TheOther(hereGone)), 2);
    RowIsPlanned(ManifestOf(s.local), ManifestOf(s.peer), mine, theirs, hereGone);
    GoneCounts(s.local, mine, 1, hereGone);
    GoneCounts(s.peer, theirs, 2, !hereGone);
  }

  lemma RowIsPlanned(local: Manifest, remote: Manifest, mine: Content, theirs: Content, hereGone: bool)
    requires local.files == map["a" := RecordOf(mine, 1, hereGone)] && remote.files == map["a" := RecordOf(theirs, 2, !hereGone)]
    requires remote.device == 2
    ensures RowFollows(RepairRow(mine, theirs, hereGone), local, remote, Bidirectional, 0, 0)
  {
  }

  lemma GoneCounts(d: Device, content: Content, id: DeviceId, gone: bool)
    requires d.tables.files == map["a" := RecordOf(content, id, gone)]
    ensures IndexedBytes(d) == |content|
  {
    var none: map<Path, nat> := map[];
    Sums.SumUpdate(none, "a", |content|);
    assert Sizes(d.tables.files) == none["a" := |content|];
    assert Sums.Sum(none) == 0;
  }

  /** Whatever the two contents were: in the end both devices have the file of the side that
      kept it. */
  lemma MovesRepair(mine: Content, theirs: Content, hereGone: bool, channel: Channel)
    requires channel.aead.Correct()
    ensures var s, left := Idle(Differing(mine, theirs)), if hereGone then theirs else mine;
      && Inv(s) && InStep(s.world)
      && var before, after := Reach(s, channel, Repairing(hereGone), 5).world, Reach(s, channel, Repairing(hereGone), 9).world;
         && "a" !in Side(before, hereGone).disk
         && after.local.disk == after.peer.disk == map["a" := left]
  {
    hide Scan, Reach, IsTaken, Agrees, Sound, RunList, ExecuteOne, IndexedBytes, RowFollows;
    HoldingAgrees(1, mine);
    HoldingAgrees(2, theirs);
    var s, moves, row := Idle(Differing(mine, theirs)), Repairing(hereGone), RepairRow(mine, theirs, hereGone);
    TakenState(mine, theirs, hereGone, channel);
    var v := Reach(s, channel, moves, 5).world;
    TakenDisks(v, mine, theirs, hereGone);
    ScannedTaken(v, mine, theirs, hereGone);
    LastOfRepairing(hereGone);
    TheRunOfOne(moves, s, channel);
    if hereGone {
      TakingRemote(ScanBoth(v), channel, row);
      assert map[]["a" := theirs] == map["a" := theirs];
    } else {
      TakingLocal(ScanBoth(v), channel, row);
      assert map[]["a" := mine] == map["a" := mine];
    }
  }

  lemma TakenDisks(v: World, mine: Content, theirs: Content, hereGone: bool)
    requires IsTaken(v, mine, theirs, hereGone)
    ensures v.local.disk == (if hereGone then map[] else map["a" := mine])
    ensures v.peer.disk == (if hereGone then map["a" := theirs] else map[])
  {
  }

  lemma LastOfRepairing(hereGone: bool)
    ensures Repairing(hereGone)[5..] == [StartRun(true), Advance(1, 0, 1), Advance(1, 0, 1), Advance(1, 0, 1)]
  {
  }
}
