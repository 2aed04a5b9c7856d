/** Two sequences of moves in which a file goes that nobody chose to give up: the last
    copy of one that the user chose to keep, and an edit made while a queue run is under
    way (crates/syncer-agent/src/main.rs:863-1068). */
module Losses {
  import opened Wrappers
  import opened Domain
  import opened StateTables
  import opened Devices
  import opened PeerCrypto
  import opened PeerServer
  import opened SyncEngine
  import opened Transfers
  import opened Runs
  import opened Interleaving
  import opened Jobs
  import opened Replacements
  import Ordering
  import Planning
  import RelativePaths
  import Sums

  function Holding(id: DeviceId, content: Content): Device {
    Device(id, Bidirectional, 2 * I64_MAX, map["a" := content], EmptyTables.(files := map["a" := Scanned(content, id)]))
  }

  /** Two scanned folders that differ in their only file. */
  function Differing(mine: Content, theirs: Content): World {
    World(Holding(1, mine), Holding(2, theirs))
  }

  function Idle(w: World): System {
    System(w, [])
  }

  /** The queued conflict once it is resolved. */
  function ResolvedRow(mine: Content, theirs: Content, resolution: Resolution): Operation {
    Operation(0, "a", if resolution == TakeLocal then Upload else Download, Pending,
              if resolution == TakeLocal then UserSelectedLocal else UserSelectedRemote, Some(|mine|), Some(|theirs|),
              Some(Blake3(mine)), Some(Blake3(theirs)), 2, None, 0, 0)
  }

  function Blocked(mine: Content, theirs: Content): Operation {
    Operation(0, "a", ResolveConflict, OperationStatus.Blocked, ContentDiffers, Some(|mine|), Some(|theirs|),
              Some(Blake3(mine)), Some(Blake3(theirs)), 2, None, 0, 0)
  }

  lemma HoldingAgrees(id: DeviceId, content: Content)
    ensures Agrees(Holding(id, content)) && Sound(Holding(id, content))
    ensures Scan(Holding(id, content)) == Holding(id, content).(tables := Scan(Holding(id, content)).tables)
    ensures Scan(Holding(id, content)).tables.files == Holding(id, content).tables.files
    ensures Scan(Holding(id, content)).tables.operations == [] && Scan(Holding(id, content)).tables.nextId == 0
  {
    RelativePaths.OneLetterIsPlain();
    hide RelativePaths.Plain;
    ScanAt(Holding(id, content).tables, Holding(id, content).disk, id, "a");
  }

  /** The plan holds the conflict and nothing else. */
  lemma OneConflict(mine: Content, theirs: Content)
    requires mine != theirs
    ensures var s := ScanBoth(Differing(mine, theirs));
      Storable(PlanFor(s).entries) && PlanRows(PlanFor(s), 0, 0) == [Blocked(mine, theirs)]
  {
    hide Scan, Planning.Plan, Planning.EntryFor, PlanRows, Storable;
    HoldingAgrees(1, mine);
    HoldingAgrees(2, theirs);
    var s := ScanBoth(Differing(mine, theirs));
    var local, remote := ManifestOf(s.local), ManifestOf(s.peer);
    SoleEntry(local, remote, Bidirectional, "a");
    Planning.PlanNamesPeers(local, remote, Bidirectional);
    ConflictEntry(local, remote, mine, theirs);
    OneRow(PlanFor(s), mine, theirs);
  }

  lemma SoleEntry(local: Manifest, remote: Manifest, mode: FolderMode, path: Path)
    requires local.files.Keys + remote.files.Keys == {path}
    ensures Planning.Plan(local, remote, mode).entries == [Planning.EntryFor(local, remote, mode, path)]
  {
    hide Planning.Plan, Planning.EntryFor, Planning.InPathOrder;
    Planning.PlanCovers(local, remote, mode);
    var e := Planning.Plan(local, remote, mode).entries;
    Planning.PlanHolds(local, remote, mode, e[0]);
  }

  function Entry(mine: Content, theirs: Content): SyncPlanEntry {
    SyncPlanEntry("a", Conflict, Some(|mine|), Some(|theirs|), Some(Blake3(mine)), Some(Blake3(theirs)), ContentDiffers)
  }

  lemma ConflictEntry(local: Manifest, remote: Manifest, mine: Content, theirs: Content)
    requires mine != theirs && local.files == map["a" := Scanned(mine, 1)] && remote.files == map["a" := Scanned(theirs, 2)]
    ensures Planning.EntryFor(local, remote, Bidirectional, "a") == Entry(mine, theirs)
  {
  }

  lemma OneRow(plan: SyncPlan, mine: Content, theirs: Content)
    requires plan.entries == [Entry(mine, theirs)] && plan.remoteDevice == 2
    ensures Storable(plan.entries) && PlanRows(plan, 0, 0) == [Blocked(mine, theirs)]
  {
    assert Actionable(plan.entries, 0) == [];
    assert Actionable(plan.entries, 1) == [Entry(mine, theirs)];
  }

  // ------------------------------------------------------------------
  // The conflict is queued and resolved
  // ------------------------------------------------------------------

  function Queueing(): seq<Move> {
    [StartPlan(true), Advance(0, 0, 0), Advance(0, 0, 0)]
  }

  function QueueingAndResolving(resolution: Resolution): seq<Move> {
    Queueing() + [Do(true, ResolveBlocked(0, resolution))]
  }

  /** What they leave. */
  ghost predicate IsResolved(v: World, mine: Content, theirs: Content, resolution: Resolution) {
    && v.Operations() == [ResolvedRow(mine, theirs, resolution)]
    && v.local.disk == map["a" := mine] && v.local.tables.files == map["a" := Scanned(mine, 1)]
    && v.local.id == 1 && v.local.maxBytes == 2 * I64_MAX
    && v.peer == Scan(Holding(2, theirs))
  }

  lemma PlannedConflict(mine: Content, theirs: Content, resolution: Resolution)
    requires mine != theirs
    ensures var v := EnqueuePlan(Differing(mine, theirs), 0).world;
      && v.Operations() == [Blocked(mine, theirs)]
      && IsResolved(v.WithOperations([ResolvedRow(mine, theirs, resolution)]), mine, theirs, resolution)
  {
    hide Scan, PlanRows, PlanFor, Storable;
    HoldingAgrees(1, mine);
    HoldingAgrees(2, theirs);
    OneConflict(mine, theirs);
  }

  lemma ResolvesTheConflict(mine: Content, theirs: Content, resolution: Resolution)
    ensures Resolve([Blocked(mine, theirs)], 0, resolution) == Ok([ResolvedRow(mine, theirs, resolution)])
  {
    var rows := [Blocked(mine, theirs)];
    assert Find(rows, 0) == Some(rows[0]);
    var r := Resolve(rows, 0, resolution).value;
    assert r[0] == ResolvedRow(mine, theirs, resolution) && r == [r[0]];
  }

  lemma QueuedAndResolved(mine: Content, theirs: Content, resolution: Resolution, channel: Channel)
    requires mine != theirs
    ensures var s := Reach(Idle(Differing(mine, theirs)), channel, QueueingAndResolving(resolution), 4);
      IsResolved(s.world, mine, theirs, resolution) && s.jobs == [Job(true, Stage.Finished)]
  {
    hide EnqueuePlan, IsResolved, Resolve, ResolvedRow, Blocked;
    var w, moves := Differing(mine, theirs), QueueingAndResolving(resolution);
    assert PlanMoves(Idle(w), true, 0) == Queueing();
    PlanInOnePiece(Idle(w), channel, true, 0);
    ReachPrefix(Idle(w), channel, Queueing(), [Do(true, ResolveBlocked(0, resolution))], 3);
    PlannedConflict(mine, theirs, resolution);
    ResolvesTheConflict(mine, theirs, resolution);
    assert moves[3] == Do(true, ResolveBlocked(0, resolution));
  }

  lemma OneListed(op: Operation, peer: DeviceId)
    requires op.IsTransfer() && op.status == Pending && op.remoteDevice == peer
    ensures ListFor([op], peer, 1) == [op]
  {
    assert [op][1..] == [];
    assert Selected([op], peer, op.kind) == [op];
    assert Selected([op], peer, if op.kind == Upload then Download else Upload) == [];
    assert Ordering.StableSort(OlderFirst, []) == [];
    assert Ordering.StableSort(OlderFirst, [op]) == [op];
  }

  lemma SoleScanned(d: Device, content: Content)
    requires Sound(d) && d.disk == map["a" := content] && d.tables.files.Keys == {"a"}
    ensures Scan(d).tables.files == map["a" := Scanned(content, d.id)]
    ensures Agrees(Scan(d)) && Sound(Scan(d))
  {
    ScanAgrees(d);
    ScanAt(d.tables, d.disk, d.id, "a");
    hide ScanTables, RelativePaths.Plain;
  }

  // ------------------------------------------------------------------
  // The last copy
  // ------------------------------------------------------------------

  /** What the executor meets: a record without a file, and the resolved upload. */
  ghost predicate Stale(s: World, mine: Content, theirs: Content) {
    && InStep(s) && s.local.id == 1 && s.peer.id == 2 && s.Operations() == [ResolvedRow(mine, theirs, TakeLocal)]
    && "a" !in s.local.disk && "a" in s.local.tables.files
    && s.local.tables.files["a"].kind == File
    && s.local.tables.files["a"].hash == Some(Blake3(mine)) && s.local.tables.files["a"].size == |mine|
    && s.peer.disk == map["a" := theirs]
  }

  lemma ExecutedStale(s: World, channel: Channel, mine: Content, theirs: Content)
    requires Stale(s, mine, theirs) && channel.aead.Correct()
    ensures var v := ExecuteOne(s, channel, ManifestOf(s.peer), ResolvedRow(mine, theirs, TakeLocal)).world;
      "a" !in v.local.disk && "a" !in v.peer.disk
  {
    hide UploadOperation, Remaining, IndexedBytes, PlainNames;
    var op := ResolvedRow(mine, theirs, TakeLocal);
    var started := s.WithOperations(MarkStarted(s.Operations(), 0));
    SameFolderFacts(started.local, s.local);
    assert Describes(s.peer.tables.files["a"], theirs);
    assert Clears(started, ManifestOf(s.peer), op);
    ResolvedUploadReplaces(started, channel, ManifestOf(s.peer), op);
  }

  /** The conflict is queued and resolved in favour of the local file, which then is
      removed outside the agent before the queue is executed. */
  function LosingTheLastCopy(): (moves: seq<Move>)
    ensures |moves| == 9
  {
    RelativePaths.OneLetterIsPlain();
    QueueingAndResolving(TakeLocal) + [Do(true, Edit("a", None))]
    + [StartRun(true), Advance(1, 0, 1), Advance(1, 0, 1), Advance(1, 0, 1)]
  }

  lemma ScannedStale(v: World, mine: Content, theirs: Content)
    requires mine != theirs && IsResolved(v, mine, theirs, TakeLocal)
    ensures Stale(ScanBoth(v.(local := v.local.(disk := map[]))), mine, theirs)
    ensures RunList(ScanBoth(v.(local := v.local.(disk := map[]))), 1) == [ResolvedRow(mine, theirs, TakeLocal)]
  {
    hide ScanTables, RelativePaths.Plain, ListPending;
    RelativePaths.OneLetterIsPlain();
    HoldingAgrees(1, mine);
    HoldingAgrees(2, theirs);
    var u := v.local.(disk := map[]);
    assert Sound(u);
    ScanAgrees(u);
    ScanAt(u.tables, u.disk, 1, "a");
    ScanAgrees(Holding(2, theirs));
    ScanAgrees(v.peer);
    ScanChangesTheIndexOnly(u);
    ScanChangesTheIndexOnly(v.peer);
    OneListed(ResolvedRow(mine, theirs, TakeLocal), 2);
  }

  /** The state before the queue run. */
  lemma LocalFileGone(mine: Content, theirs: Content, channel: Channel)
    requires mine != theirs
    ensures var s := Reach(Idle(Differing(mine, theirs)), channel, LosingTheLastCopy(), 5);
      && s.jobs == [Job(true, Stage.Finished)] && s.world.local.disk == map[] && s.world.peer.disk == map["a" := theirs]
      && exists v :: IsResolved(v, mine, theirs, TakeLocal) && s.world == v.(local := v.local.(disk := map[]))
  {
    hide Scan;
    RelativePaths.OneLetterIsPlain();
    var w, first := Idle(Differing(mine, theirs)), QueueingAndResolving(TakeLocal);
    var rest: seq<Move> := [Do(true, Edit("a", None)), StartRun(true), Advance(1, 0, 1), Advance(1, 0, 1), Advance(1, 0, 1)];
    assert LosingTheLastCopy() == first + rest;
    QueuedAndResolved(mine, theirs, TakeLocal, channel);
    ReachPrefix(w, channel, first, rest, 4);
    ScanChangesTheIndexOnly(Holding(2, theirs));
    var v := Reach(w, channel, first, 4).world;
    assert v.local.disk - {"a"} == map[];
  }

  /** From two scanned folders that differ in their only file: the conflict is resolved in
      favour of the local file, that file is removed outside the agent, and the executor
      then removes the peer's, so that neither device has one. */
  lemma MovesLoseTheLastCopy(mine: Content, theirs: Content, channel: Channel)
    requires mine != theirs && channel.aead.Correct()
    ensures var s := Idle(Differing(mine, theirs));
      && Inv(s) && InStep(s.world) && "a" in s.world.local.disk && "a" in s.world.peer.disk
      && "a" in Reach(s, channel, LosingTheLastCopy(), 8).world.peer.disk
      && var after := Reach(s, channel, LosingTheLastCopy(), 9).world;
         "a" !in after.local.disk && "a" !in after.peer.disk
  {
    hide Scan, ExecuteOne, Agrees, Sound, Stale, IsResolved, LosingTheLastCopy, Make;
    HoldingAgrees(1, mine);
    HoldingAgrees(2, theirs);
    var s, moves := Idle(Differing(mine, theirs)), LosingTheLastCopy();
    LocalFileGone(mine, theirs, channel);
    var u := Reach(s, channel, moves, 5);
    var v :| IsResolved(v, mine, theirs, TakeLocal) && u.world == v.(local := v.local.(disk := map[]));
    ScannedStale(v, mine, theirs);
    ExecutedStale(ScanBoth(u.world), channel, mine, theirs);
    LastMoves();
    TheRunOfOne(moves, s, channel);
    ScanChangesTheIndexOnly(u.world.peer);
  }

  lemma LastMoves()
    ensures LosingTheLastCopy()[5..] == [StartRun(true), Advance(1, 0, 1), Advance(1, 0, 1), Advance(1, 0, 1)]
  {
  }

  /** The last moves are a queue run in one piece. */
  lemma TheRunOfOne(moves: seq<Move>, s: System, channel: Channel)
    requires |moves| == 9 && moves[5..] == [StartRun(true), Advance(1, 0, 1), Advance(1, 0, 1), Advance(1, 0, 1)]
    requires var u := Reach(s, channel, moves, 5); |u.jobs| == 1 && |RunList(ScanBoth(u.world), 1)| == 1
    ensures var w := ScanBoth(Reach(s, channel, moves, 5).world);
      && Reach(s, channel, moves, 8).world == w
      && Reach(s, channel, moves, 9).world == ExecuteOne(w, channel, ManifestOf(w.peer), RunList(w, 1)[0]).world
  {
    hide Scan, RunList, Make, ExecuteOne, LosingTheLastCopy;
    var u := Reach(s, channel, moves, 5);
    var w, run := ScanBoth(u.world), RunMoves(u, true, 1, 1);
    assert Again(Advance(1, 0, 1), 0) == [];
    assert Again(Advance(1, 0, 1), 1) == [Advance(1, 0, 1)];
    assert moves == moves[..5] + run;
    ReachPrefix(s, channel, moves[..5], run, 5);
    ReachOn(s, channel, moves[..5], run, 3);
    ReachOn(s, channel, moves[..5], run, 4);
    RunInOnePiece(u, channel, true, 1, 0);
    RunInOnePiece(u, channel, true, 1, 1);
    assert run == RunMoves(u, true, 1, 0) + [Advance(1, 0, 1)];
    ReachPrefix(u, channel, RunMoves(u, true, 1, 0), [Advance(1, 0, 1)], 3);
    assert ExecuteFirst(w, channel, ManifestOf(w.peer), RunList(w, 1), 0).world == w;
  }

  // ------------------------------------------------------------------
  // An edit while a run is under way
  // ------------------------------------------------------------------

  /** The conflict is queued and resolved in favour of the peer's file; a queue run scans,
      fetches the manifest and lists it; then the local file is edited, and the executor
      goes on. */
  function EditingDuringARun(newer: Content): (moves: seq<Move>)
    ensures |moves| == 9
  {
    RelativePaths.OneLetterIsPlain();
    QueueingAndResolving(TakeRemote) + [StartRun(true), Advance(1, 0, 1), Advance(1, 0, 1)]
    + [Do(true, Edit("a", Some(newer))), Advance(1, 0, 1)]
  }

  lemma ScannedResolution(v: World, mine: Content, theirs: Content)
    requires mine != theirs && IsResolved(v, mine, theirs, TakeRemote)
    ensures var w := ScanBoth(v);
      && w == World(v.local.(tables := w.local.tables), v.peer.(tables := w.peer.tables))
      && v.local.disk == map["a" := mine] && v.peer.disk == map["a" := theirs]
      && w.local.tables.files == map["a" := Scanned(mine, 1)] && w.peer.tables.files == map["a" := Scanned(theirs, 2)]
      && RunList(w, 1) == [ResolvedRow(mine, theirs, TakeRemote)] && w.Operations() == RunList(w, 1)
      && w.local.maxBytes == 2 * I64_MAX && Sound(w.peer)
  {
    hide Scan, ListPending, Agrees;
    HoldingAgrees(2, theirs);
    SoleScanned(Holding(2, theirs), theirs);
    ScanChangesTheIndexOnly(Holding(2, theirs));
    ScanChangesTheIndexOnly(v.local);
    ScanChangesTheIndexOnly(v.peer);
    LocalIsSound(v, mine, theirs);
    SoleScanned(v.local, mine);
    SoleScanned(v.peer, theirs);
    OneListed(ResolvedRow(mine, theirs, TakeRemote), 2);
  }

  lemma LocalIsSound(v: World, mine: Content, theirs: Content)
    requires IsResolved(v, mine, theirs, TakeRemote)
    ensures Sound(v.local)
  {
    RelativePaths.OneLetterIsPlain();
    hide RelativePaths.Plain, Scan;
  }

  function Edited(w: World, newer: Content): World {
    w.(local := w.local.(disk := map["a" := newer]))
  }

  /** The queue run before the edit. */
  lemma ListedState(mine: Content, theirs: Content, newer: Content, channel: Channel) returns (v: World)
    requires mine != theirs
    ensures IsResolved(v, mine, theirs, TakeRemote)
    ensures Reach(Idle(Differing(mine, theirs)), channel, EditingDuringARun(newer), 7)
         == System(ScanBoth(v), [Job(true, Stage.Finished),
                                 Job(true, Running(ManifestOf(Scan(v.peer)), [ResolvedRow(mine, theirs, TakeRemote)]))])
  {
    hide Scan, RunList, ExecuteOne, IsResolved, Make;
    var s, moves, first := Idle(Differing(mine, theirs)), EditingDuringARun(newer), QueueingAndResolving(TakeRemote);
    QueuedAndResolved(mine, theirs, TakeRemote, channel);
    var u := Reach(s, channel, first, 4);
    v := u.world;
    ScannedResolution(v, mine, theirs);
    var run := RunMoves(u, true, 1, 0);
    assert Again(Advance(1, 0, 1), 0) == [];
    assert moves == first + run + moves[7..];
    ReachPrefix(s, channel, first, run, 4);
    ReachOn(s, channel, first, run, 3);
    ReachPrefix(s, channel, first + run, moves[7..], 7);
    RunBegins(u, channel, true, 1);
  }

  /** What the moves amount to: the edit comes after the state of `ScannedResolution`. */
  lemma EditedState(mine: Content, theirs: Content, newer: Content, channel: Channel) returns (v: World)
    requires mine != theirs
    ensures IsResolved(v, mine, theirs, TakeRemote)
    ensures var s, moves := Idle(Differing(mine, theirs)), EditingDuringARun(newer);
      && Reach(s, channel, moves, 8).world == Edited(ScanBoth(v), newer)
      && Reach(s, channel, moves, 9).world
         == ExecuteOne(Edited(ScanBoth(v), newer), channel, ManifestOf(Scan(v.peer)), ResolvedRow(mine, theirs, TakeRemote)).world
  {
    hide Scan, RunList, ExecuteOne, IsResolved;
    v := ListedState(mine, theirs, newer, channel);
    ScannedResolution(v, mine, theirs);
    RelativePaths.OneLetterIsPlain();
    var moves := EditingDuringARun(newer);
    assert moves[7] == Do(true, Edit("a", Some(newer))) && moves[8] == Advance(1, 0, 1);
    assert ScanBoth(v).local.disk["a" := newer] == map["a" := newer];
  }

  lemma EditedExecution(v: World, mine: Content, theirs: Content, newer: Content, channel: Channel)
    requires mine != theirs && IsResolved(v, mine, theirs, TakeRemote) && channel.aead.Correct()
    ensures var w, op := Edited(ScanBoth(v), newer), ResolvedRow(mine, theirs, TakeRemote);
      var o := ExecuteOne(w, channel, ManifestOf(w.peer), op);
      o.result.Ok? && o.world.local.disk == map["a" := theirs]
  {
    hide Scan, RunList, DownloadOperation, Sound, IsResolved, IndexedBytes;
    ScannedResolution(v, mine, theirs);
    var w, op := Edited(ScanBoth(v), newer), ResolvedRow(mine, theirs, TakeRemote);
    var started := w.WithOperations(MarkStarted(w.Operations(), op.id));
    SoleBytes(started.local, mine);
    assert DownloadGoesThrough(started, ManifestOf(w.peer), op);
    DownloadInAnyState(started, channel, ManifestOf(w.peer), op);
    assert map["a" := newer]["a" := theirs] == map["a" := theirs];
  }

  lemma SoleBytes(d: Device, content: Content)
    requires d.tables.files == map["a" := Scanned(content, 1)]
    ensures IndexedBytes(d) == |content|
  {
    var none: map<Path, nat> := map[];
    Sums.SumUpdate(none, "a", |content|);
    assert Sizes(d.tables.files) == none["a" := |content|];
    assert Sums.Sum(none) == 0;
  }

  /** The executor replaces the edit, which no operation of the device names. */
  lemma MovesLoseAnEdit(mine: Content, theirs: Content, newer: Content, channel: Channel)
    requires mine != theirs && newer != mine && channel.aead.Correct()
    ensures var s := Idle(Differing(mine, theirs));
      && Inv(s) && InStep(s.world)
      && var before, after := Reach(s, channel, EditingDuringARun(newer), 8), Reach(s, channel, EditingDuringARun(newer), 9);
         && before.world.local.disk == map["a" := newer]
         && (forall op :: op in before.world.Operations() ==> !Agreed(op, "a", newer))
         && after.world.local.disk == map["a" := theirs]
  {
    hide Scan, RunList, ExecuteOne, IsResolved, Reach, EditingDuringARun, Agrees, Sound;
    HoldingAgrees(1, mine);
    HoldingAgrees(2, theirs);
    var v := EditedState(mine, theirs, newer, channel);
    ScannedResolution(v, mine, theirs);
    EditedExecution(v, mine, theirs, newer, channel);
  }
}
