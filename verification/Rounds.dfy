/** One round of `run_sync_once` after another: what a round takes from the
    plan, and where the rounds end. */
module Rounds {
  import opened Wrappers
  import opened Domain
  import opened StateTables
  import opened Devices
  import opened PeerCrypto
  import opened PeerServer
  import opened SyncEngine
  import opened Transfers
  import opened QueueListing
  import opened Runs
  import opened Reachability
  import opened Convergence
  import Ordering
  import Planning
  import QueueMachine

  // ------------------------------------------------------------------
  // From the plan to the run list
  // ------------------------------------------------------------------

  /** In a bidirectional folder the planned transfers are exactly the backlog. */
  lemma PlannedTransfersAreTheBacklog(s: World, p: Path)
    requires InStep(s) && s.local.mode == Bidirectional
    ensures var action := Planning.EntryFor(ManifestOf(s.local), ManifestOf(s.peer), Bidirectional, p).action;
      && (action == DownloadFromRemote <==> p in Wanted(s.peer, s.local))
      && (action == UploadToRemote <==> p in Wanted(s.local, s.peer))
  {
  }

  lemma PlannedTransferIsReady(s: World, p: Path, id: OperationId, now: nat)
    requires InStep(s) && s.local.mode == Bidirectional
    requires Planning.EntryFor(ManifestOf(s.local), ManifestOf(s.peer), Bidirectional, p).action != InSync
    ensures var row := RowFor(Planning.EntryFor(ManifestOf(s.local), ManifestOf(s.peer), Bidirectional, p), s.peer.id, id, now);
      row.IsTransfer() ==> Ready(s, ManifestOf(s.peer), row)
  {
  }

  /** The rows of the plan: distinct ids and paths, and every transfer is ready. */
  lemma PlanRowsFacts(s: World, id: OperationId, now: nat)
    requires InStep(s) && s.local.mode == Bidirectional
    ensures var rows := PlanRows(PlanFor(s), id, now);
      && DistinctIds(rows) && DistinctPaths(rows)
      && (forall i :: 0 <= i < |rows| ==> rows[i].remoteDevice == s.peer.id && (rows[i].status == Pending <==> rows[i].IsTransfer()))
      && (forall i :: 0 <= i < |rows| && rows[i].IsTransfer() ==> Ready(s, ManifestOf(s.peer), rows[i]))
  {
    var local, remote := ManifestOf(s.local), ManifestOf(s.peer);
    QueueMachine.PlanRowsMirrorEntries(local, remote, Bidirectional, id, now);
    QueueMachine.PlannedRowsAreFresh(local, remote, Bidirectional, id, now);
    hide Planning.Plan, Planning.EntryFor, Agrees, Ready, Actionable, Ordering.LexLe;
    var rows := PlanRows(PlanFor(s), id, now);
    var plan := Planning.Plan(local, remote, Bidirectional);
    var a := Actionable(plan.entries, |plan.entries|);
    forall i | 0 <= i < |rows|
      ensures rows[i].remoteDevice == s.peer.id && (rows[i].status == Pending <==> rows[i].IsTransfer())
      ensures rows[i].IsTransfer() ==> Ready(s, remote, rows[i])
    {
      assert a[i] in a;
      Planning.PlanHolds(local, remote, Bidirectional, a[i]);
      PlannedTransferIsReady(s, a[i].path, id + i, now);
    }
  }

  function PathsOf(ops: seq<Operation>): set<Path> {
    set op | op in ops :: op.path
  }

  lemma {:induction false} CountPaths(ops: seq<Operation>)
    requires DistinctPaths(ops)
    ensures |PathsOf(ops)| == |ops|
  {
    if ops != [] {
      CountPaths(ops[1..]);
      assert ops == [ops[0]] + ops[1..];
      assert PathsOf(ops) == {ops[0].path} + PathsOf(ops[1..]);
    }
  }

  lemma SubsequenceKeepsDistinctPaths(all: seq<Operation>, some: seq<Operation>)
    requires DistinctPaths(all) && DistinctIds(some) && forall op :: op in some ==> op in all
    ensures DistinctPaths(some)
  {
    forall i, j | 0 <= i < j < |some| ensures some[i].path != some[j].path {
      assert some[i] in some && some[j] in some;
      var x, y :| 0 <= x < |all| && 0 <= y < |all| && all[x] == some[i] && all[y] == some[j];
      assert x != y;
    }
  }

  /** The files one kind of transfer carries. */
  function WantedBy(s: World, kind: OperationKind): map<Path, nat> {
    if kind == Download then Wanted(s.peer, s.local) else Wanted(s.local, s.peer)
  }

  /** Of the plan's rows, as many are transfers of one kind as files wait for it. */
  lemma SelectedRowsCount(s: World, id: OperationId, now: nat, kind: OperationKind)
    requires InStep(s) && s.local.mode == Bidirectional && (kind == Download || kind == Upload)
    ensures |Selected(PlanRows(PlanFor(s), id, now), s.peer.id, kind)| == |WantedBy(s, kind)|
  {
    var rows := PlanRows(PlanFor(s), id, now);
    var selected := Selected(rows, s.peer.id, kind);
    PlanRowsFacts(s, id, now);
    SelectedFacts(rows, s.peer.id, kind);
    SubsequenceKeepsDistinctPaths(rows, selected);
    CountPaths(selected);
    assert PathsOf(selected) == WantedBy(s, kind).Keys by {
      forall p ensures p in PathsOf(selected) <==> p in WantedBy(s, kind) {
        if p in WantedBy(s, kind) {
          WantedHasARow(s, id, now, kind, p);
        }
        if p in PathsOf(selected) {
          var op :| op in selected && op.path == p;
          assert op in rows;
          hide Planning.Plan, PlanRows, Selected;
        }
      }
    }
  }

  lemma WantedHasARow(s: World, id: OperationId, now: nat, kind: OperationKind, p: Path)
    requires InStep(s) && s.local.mode == Bidirectional && (kind == Download || kind == Upload) && p in WantedBy(s, kind)
    ensures p in PathsOf(Selected(PlanRows(PlanFor(s), id, now), s.peer.id, kind))
  {
    var local, remote := ManifestOf(s.local), ManifestOf(s.peer);
    var rows := PlanRows(PlanFor(s), id, now);
    PlannedTransfersAreTheBacklog(s, p);
    QueueMachine.PlanRowsMirrorEntries(local, remote, Bidirectional, id, now);
    Planning.PlanCovers(local, remote, Bidirectional);
    PlanRowsFacts(s, id, now);
    SelectedFacts(rows, s.peer.id, kind);
    assert p in local.files || p in remote.files;
    hide Planning.Plan, Planning.EntryFor, Agrees, Ready, Actionable, Wanted, PlanRows, Selected, Planning.InPathOrder;
    var plan := PlanFor(s);
    var a := Actionable(plan.entries, |plan.entries|);
    var k :| 0 <= k < |plan.entries| && plan.entries[k].path == p;
    assert plan.entries[k] in plan.entries;
    assert plan.entries[k] in a;
    var i :| 0 <= i < |a| && a[i] == plan.entries[k];
    assert rows[i] in rows;
    assert rows[i].path == p && rows[i].kind == kind;
  }

  // ------------------------------------------------------------------
  // The run list of a round
  // ------------------------------------------------------------------

  lemma {:induction false} SelectedSplits(a: seq<Operation>, b: seq<Operation>, peer: DeviceId, kind: OperationKind)
    ensures Selected(a + b, peer, kind) == Selected(a, peer, kind) + Selected(b, peer, kind)
  {
    if a == [] {
      assert a + b == b;
    } else {
      SelectedSplits(a[1..], b, peer, kind);
      assert (a + b)[1..] == a[1..] + b;
    }
  }

  lemma {:induction false} NothingSelectedOfKept(ops: seq<Operation>, peer: DeviceId, kind: OperationKind)
    ensures Selected(Kept(ops, peer), peer, kind) == []
  {
    if ops != [] {
      NothingSelectedOfKept(ops[1..], peer, kind);
      if ReplacedBy(ops[0], peer) {
        assert Kept(ops, peer) == Kept(ops[1..], peer);
      } else {
        assert Kept(ops, peer)[1..] == Kept(ops[1..], peer);
      }
    }
  }

  /** After planning, what is listed comes from the new rows only. */
  lemma SelectedAfterPlanning(ops: seq<Operation>, rows: seq<Operation>, peer: DeviceId, kind: OperationKind)
    ensures Selected(Kept(ops, peer) + rows, peer, kind) == Selected(rows, peer, kind)
  {
    SelectedSplits(Kept(ops, peer), rows, peer, kind);
    NothingSelectedOfKept(ops, peer, kind);
  }

  /** The device `d` after planning: its queue holds the kept rows and the new ones. */
  ghost predicate JustPlanned(s: World, v: World, ops: seq<Operation>, id: OperationId, now: nat) {
    && v.peer.id == s.peer.id
    && v.local.disk == s.local.disk && v.local.tables.files == s.local.tables.files
    && v.peer.disk == s.peer.disk && v.peer.tables.files == s.peer.tables.files
    && v.Operations() == Kept(ops, s.peer.id) + PlanRows(PlanFor(s), id, now)
    && DistinctIds(v.Operations())
  }

  lemma ListedAreRows(s: World, v: World, ops: seq<Operation>, id: OperationId, now: nat, kind: OperationKind, limit: nat)
    requires InStep(s) && s.local.mode == Bidirectional && (kind == Download || kind == Upload)
    requires JustPlanned(s, v, ops, id, now)
    ensures var listed := ListPending(v.Operations(), v.peer.id, kind, limit);
      && |listed| == Min(limit, |WantedBy(s, kind)|)
      && forall op :: op in listed ==> op in PlanRows(PlanFor(s), id, now) && op.IsTransfer()
  {
    hide PlanRows, Selected, Agrees, ListPending, PlanFor, Kept, WantedBy;
    var rows := PlanRows(PlanFor(s), id, now);
    SelectedAfterPlanning(ops, rows, s.peer.id, kind);
    SelectedRowsCount(s, id, now, kind);
    ListPendingFacts(v.Operations(), v.peer.id, kind, limit);
    var listed := ListPending(v.Operations(), v.peer.id, kind, limit);
    forall op | op in listed ensures op in rows && op.IsTransfer() {
      ListedIsNotKept(ops, s.peer.id, kind, op);
    }
  }

  lemma ListedIsNotKept(ops: seq<Operation>, peer: DeviceId, kind: OperationKind, op: Operation)
    requires Listed(op, peer, kind)
    ensures op !in Kept(ops, peer)
  {
    QueueMachine.KeptFacts(ops, peer);
  }

  /** A round's run list: as much of the backlog as the limit allows, on distinct
      paths, and every operation ready. */
  lemma RunListOfARound(s: World, v: World, ops: seq<Operation>, id: OperationId, now: nat, limit: nat)
    requires InStep(s) && s.local.mode == Bidirectional && JustPlanned(s, v, ops, id, now)
    ensures |RunList(v, limit)| == Min(limit, Backlog(s))
    ensures DistinctPaths(RunList(v, limit))
    ensures ReadyFrom(s, ManifestOf(s.peer), RunList(v, limit), 0)
  {
    hide PlanRows, Agrees, ListPending, PlanFor, Kept, Ready, Wanted, DistinctPaths, DistinctIds;
    var rows, list := PlanRows(PlanFor(s), id, now), RunList(v, limit);
    ListedAreRows(s, v, ops, id, now, Download, limit);
    var downloads := ListPending(v.Operations(), v.peer.id, Download, limit);
    ListedAreRows(s, v, ops, id, now, Upload, SaturatingSub(limit, |downloads|));
    var uploads := ListPending(v.Operations(), v.peer.id, Upload, SaturatingSub(limit, |downloads|));
    RunListFacts(v, limit);
    PlanRowsFacts(s, id, now);
    assert list == downloads + uploads;
    SubsequenceKeepsDistinctPaths(rows, list);
    forall k | 0 <= k < |list| ensures Ready(s, ManifestOf(s.peer), list[k]) {
      assert list[k] in list && list[k] in rows;
    }
  }

  // ------------------------------------------------------------------
  // One round
  // ------------------------------------------------------------------

  lemma ScanTwice(d: Device)
    requires Sound(d)
    ensures Scan(Scan(d)).tables.files == Scan(d).tables.files
  {
    var s := Scan(d);
    forall p ensures var t := Scan(s);
      && (p in t.tables.files <==> p in s.tables.files)
      && (p in s.tables.files ==> t.tables.files[p] == s.tables.files[p])
    {
      ScanAt(d.tables, d.disk, d.id, p);
      ScanAt(s.tables, d.disk, d.id, p);
    }
  }

  lemma ScanIgnoresQueue(d: Device, t: Tables)
    requires t.files == d.tables.files && t.scanMissing == d.tables.scanMissing
    ensures Scan(d.(tables := t)).tables.files == Scan(d).tables.files
    ensures Scan(d.(tables := t)).tables.operations == t.operations
  {
  }

  lemma EntriesAreStorable(local: Manifest, remote: Manifest, mode: FolderMode, p: Path)
    ensures EntryStorable(Planning.EntryFor(local, remote, mode, p))
  {
  }

  lemma PlansAreStorable(s: World)
    ensures Storable(PlanFor(s).entries)
  {
    hide Planning.Plan, Planning.EntryFor, EntryStorable;
    var local, remote, entries := ManifestOf(s.local), ManifestOf(s.peer), PlanFor(s).entries;
    forall i | 0 <= i < |entries| ensures EntryStorable(entries[i]) {
      Planning.PlanHolds(local, remote, s.local.mode, entries[i]);
      EntriesAreStorable(local, remote, s.local.mode, entries[i].path);
    }
  }

  /** What the executor finds when a round reaches it. */
  lemma PlanningSetsUpTheRound(w: World, now: nat)
    requires WorldInv(w)
    ensures var q := EnqueuePlan(w, now);
      && q.result.Ok?
      && JustPlanned(ScanBoth(w), ScanBoth(q.world), w.Operations(), w.local.tables.nextId, now)
  {
    hide ScanTables, PlanRows, Kept, Planning.Plan, Storable, DistinctIds, Sound, QueueMachine.Inv;
    var s := ScanBoth(w);
    PlansAreStorable(s);
    var q := EnqueuePlan(w, now);
    ActionQueueIsDistinct(w, now);
    Planning.PlanNamesPeers(ManifestOf(s.local), ManifestOf(s.peer), s.local.mode);
    ScanTwice(w.local);
    ScanTwice(w.peer);
    ScanChangesTheIndexOnly(w.local);
    ScanChangesTheIndexOnly(w.peer);
    ScanIgnoresQueue(Scan(w.local), q.world.local.tables);
  }

  lemma ActionQueueIsDistinct(w: World, now: nat)
    requires WorldInv(w)
    ensures DistinctIds(EnqueuePlan(w, now).world.Operations())
  {
    hide EnqueuePlan;
    var events := PlanningFacts(w, now);
    QueueMachine.RunKeepsInv(QueueOf(w.local), events, |events|);
  }

  predicate SameFiles(a: World, b: World) {
    && a.local.disk == b.local.disk && a.local.tables.files == b.local.tables.files
    && a.peer.disk == b.peer.disk && a.peer.tables.files == b.peer.tables.files
    && a.local.maxBytes == b.local.maxBytes && a.peer.maxBytes == b.peer.maxBytes
  }

  lemma SameFilesSameBacklog(a: World, b: World)
    requires SameFiles(a, b)
    ensures InStep(a) == InStep(b) && Room(a) == Room(b) && Backlog(a) == Backlog(b)
  {
  }

  lemma SameFilesSameReady(a: World, b: World, m: Manifest, op: Operation)
    requires SameFiles(a, b)
    ensures Ready(a, m, op) == Ready(b, m, op)
  {
  }

  lemma PlanningKeepsFolders(w: World, now: nat)
    ensures var q := EnqueuePlan(w, now).world;
      && q.local.disk == w.local.disk && q.peer.disk == w.peer.disk && SameSettings(q.local, w.local)
      && SameSettings(q.peer, w.peer) && Progress(w, q)
  {
    hide ScanTables, Storable, PlanRows, Kept, PlanFor;
    ScanKeepsMissing(w.local);
    ScanKeepsMissing(w.peer);
  }

  lemma ScanIsProgress(w: World)
    ensures Progress(w, ScanBoth(w))
  {
    hide ScanTables;
    ScanKeepsMissing(w.local);
    ScanKeepsMissing(w.peer);
  }

  /** A run that finds only ready operations carries out all of them. */
  lemma RunOfReadyOperations(q: World, channel: Channel, limit: U64)
    requires channel.aead.Correct() && limit <= I64_MAX && InStep(ScanBoth(q)) && Room(ScanBoth(q))
    requires QueueMachine.Inv(QueueOf(q.local))
    requires DistinctPaths(RunList(ScanBoth(q), limit))
    requires ReadyFrom(ScanBoth(q), ManifestOf(ScanBoth(q).peer), RunList(ScanBoth(q), limit), 0)
    ensures var v, r := ScanBoth(q), RunSyncQueue(q, channel, limit);
      var n := |RunList(v, limit)|;
      && r.result == Ok((n, 0))
      && InStep(r.world) && Room(r.world) && Backlog(r.world) == Backlog(v) - n
      && (n == 0 ==> r.world.local.disk == q.local.disk && r.world.peer.disk == q.peer.disk)
      && EqualUpTo(r.world, RunList(v, limit), n) && Progress(q, r.world)
  {
    hide RunList, Room, Backlog, Ready, Scan, Agrees, QueueMachine.Inv, LawfulTransfers, DistinctPaths, Progress;
    var v := ScanBoth(q);
    ScanChangesTheIndexOnly(q.local);
    ScanChangesTheIndexOnly(q.peer);
    assert QueueOf(v.local) == QueueOf(q.local);
    RunListIsLawful(v, limit);
    ReadyBatch(v, channel, ManifestOf(v.peer), RunList(v, limit), |RunList(v, limit)|);
    ScanIsProgress(q);
    ProgressSteps(q, v, RunSyncQueue(q, channel, limit).world);
  }

  /** A round in a bidirectional folder finds min(limit, backlog) operations, on distinct
      paths, and each of them is ready. */
  lemma RoundIsReady(w: World, now: nat, limit: nat)
    requires WorldInv(w) && w.local.mode == Bidirectional && Room(ScanBoth(w))
    ensures var s, v := ScanBoth(w), ScanBoth(EnqueuePlan(w, now).world);
      && EnqueuePlan(w, now).result.Ok?
      && InStep(v) && Room(v) && Backlog(v) == Backlog(s)
      && |RunList(v, limit)| == Min(limit, Backlog(s))
      && DistinctPaths(RunList(v, limit)) && ReadyFrom(v, ManifestOf(v.peer), RunList(v, limit), 0)
  {
    hide EnqueuePlan, RunList, Room, Backlog, Ready, ScanTables, Agrees, QueueMachine.Inv, Sound, PlanRows, Kept,
      PlanFor, DistinctPaths, DistinctIds;
    var s, q := ScanBoth(w), EnqueuePlan(w, now).world;
    var v := ScanBoth(q);
    ScanAgrees(w.local);
    ScanAgrees(w.peer);
    PlanningSetsUpTheRound(w, now);
    PlanningKeepsFolders(w, now);
    SameFilesSameBacklog(v, s);
    RunListOfARound(s, v, w.Operations(), w.local.tables.nextId, now, limit);
    assert ManifestOf(v.peer) == ManifestOf(s.peer);
    var list := RunList(v, limit);
    forall i | 0 <= i < |list| ensures Ready(v, ManifestOf(v.peer), list[i]) {
      SameFilesSameReady(v, s, ManifestOf(v.peer), list[i]);
    }
  }

  /** The operations a round takes from its own plan. */
  function Taken(w: World, limit: nat, now: nat): seq<Operation> {
    RunList(ScanBoth(EnqueuePlan(w, now).world), limit)
  }

  /** One round, in a bidirectional folder with room on both sides: exactly
      min(limit, backlog) operations are carried out and none fails, their files
      are equal on both devices, the backlog shrinks by as many, there is still
      room, and no file of either device is touched. */
  lemma OneRound(w: World, channel: Channel, limit: U64, now: nat)
    requires WorldInv(w) && channel.aead.Correct() && w.local.mode == Bidirectional && limit <= I64_MAX
    requires Room(ScanBoth(w))
    ensures var s, r := ScanBoth(w), RunSyncOnce(w, channel, limit, now);
      && r.result == Ok((Min(limit, Backlog(s)), 0))
      && InStep(r.world) && Room(r.world)
      && Backlog(r.world) == Backlog(s) - Min(limit, Backlog(s))
      && Progress(w, r.world)
      && (Backlog(s) == 0 ==> r.world.local.disk == w.local.disk && r.world.peer.disk == w.peer.disk)
      && |Taken(w, limit, now)| == Min(limit, Backlog(s)) && DistinctPaths(Taken(w, limit, now))
      && EqualUpTo(r.world, Taken(w, limit, now), |Taken(w, limit, now)|)
  {
    hide WorldInv, SameSettings, ScanBoth, EnqueuePlan, RunSyncQueue, RunList, Room, Backlog, Ready, Scan, InStep,
      QueueMachine.Inv, Sound, DistinctPaths, Grows, EqualUpTo, ReadyFrom, Progress;
    RoundIsReady(w, now, limit);
    PlanKeepsInv(w, now);
    PlanningKeepsFolders(w, now);
    RunOfReadyOperations(EnqueuePlan(w, now).world, channel, limit);
    ProgressSteps(w, EnqueuePlan(w, now).world, RunSyncOnce(w, channel, limit, now).world);
  }

  /** What a round has carried is in sync in the next plan, which scans first. */
  lemma CarriedIsInSync(w: World, channel: Channel, limit: U64, now: nat, k: nat)
    requires WorldInv(w) && channel.aead.Correct() && w.local.mode == Bidirectional && limit <= I64_MAX
    requires Room(ScanBoth(w)) && k < |Taken(w, limit, now)|
    ensures var s := ScanBoth(RunSyncOnce(w, channel, limit, now).world);
      Planning.EntryFor(ManifestOf(s.local), ManifestOf(s.peer), Bidirectional, Taken(w, limit, now)[k].path).action == InSync
  {
    hide WorldInv, RunSyncOnce, Room, Backlog, Taken, Agrees, Planning.EntryFor, Scan;
    OneRound(w, channel, limit, now);
    var r := RunSyncOnce(w, channel, limit, now).world;
    RescanKeeps(r.local);
    RescanKeeps(r.peer);
    ScanChangesTheIndexOnly(r.local);
    ScanChangesTheIndexOnly(r.peer);
    EqualFilesAreInSync(ScanBoth(r), Taken(w, limit, now)[k].path);
  }

  lemma EqualFilesAreInSync(w: World, p: Path)
    requires InStep(w) && p in w.local.disk && p in w.peer.disk && w.local.disk[p] == w.peer.disk[p]
    ensures Planning.EntryFor(ManifestOf(w.local), ManifestOf(w.peer), Bidirectional, p).action == InSync
  {
  }

  // ------------------------------------------------------------------
  // Round after round
  // ------------------------------------------------------------------

  /** Which device makes the i-th round, and when. */
  datatype Turns = Turns(local: nat -> bool, clock: nat -> nat)

  function Always(i: nat): bool {
    true
  }

  /** Every round is made by a device whose folder is bidirectional. */
  ghost predicate Allowed(w: World, turns: Turns) {
    forall i: nat :: (if turns.local(i) then w.local.mode else w.peer.mode) == Bidirectional
  }

  /** The i-th round. */
  ghost function Round(w: World, channel: Channel, limit: U64, turns: Turns, i: nat): World {
    Turn(RunSyncOnce(Turn(w, turns.local(i)), channel, limit, turns.clock(i)).world, turns.local(i))
  }

  /** The world after `k` rounds. */
  ghost function AfterRounds(w: World, channel: Channel, limit: U64, turns: Turns, k: nat): World {
    if k == 0 then w else Round(AfterRounds(w, channel, limit, turns, k - 1), channel, limit, turns, k - 1)
  }

  lemma ScanKeepsBacklog(w: World)
    requires InStep(w)
    ensures Backlog(ScanBoth(w)) == Backlog(w) && Room(ScanBoth(w)) == Room(w) && InStep(ScanBoth(w))
  {
    hide Room, Backlog, SameKeys, ScanTables;
    RescanKeepsKeys(w.local);
    RescanKeepsKeys(w.peer);
    SameKeysSameBacklog(ScanBoth(w), w);
    RescanKeeps(w.local);
    RescanKeeps(w.peer);
  }

  lemma SwapKeeps(w: World)
    ensures WorldInv(w.Swap()) == WorldInv(w) && InStep(w.Swap()) == InStep(w) && Room(w.Swap()) == Room(w)
    ensures Backlog(w.Swap()) == Backlog(w)
  {
    hide Agrees, Sound, QueueMachine.Inv, Fits, Wanted;
  }

  lemma SwapKeepsProgress(v: World, w: World)
    ensures Progress(v.Swap(), w.Swap()) == Progress(v, w)
  {
    hide Grows, Missing;
  }

  /** A round by one device from an agreeing state. */
  lemma OwnRound(w: World, channel: Channel, limit: U64, now: nat)
    requires WorldInv(w) && InStep(w) && Room(w) && channel.aead.Correct()
    requires w.local.mode == Bidirectional && limit <= I64_MAX
    ensures var v := RunSyncOnce(w, channel, limit, now).world;
      && WorldInv(v) && InStep(v) && Room(v) && Progress(w, v)
      && SameSettings(v.local, w.local) && SameSettings(v.peer, w.peer)
      && Backlog(v) == SaturatingSub(Backlog(w), limit)
      && (Backlog(w) == 0 ==> v.local.disk == w.local.disk && v.peer.disk == w.peer.disk)
  {
    hide WorldInv, InStep, Room, Backlog, RunSyncOnce, DistinctPaths, EqualUpTo, Taken, ScanBoth, Progress, SameSettings;
    ScanKeepsBacklog(w);
    OneRound(w, channel, limit, now);
    RoundKeepsInv(w, channel, limit, now);
  }

  /** The same for the device whose turn it is. */
  lemma OneTurn(w: World, channel: Channel, limit: U64, turns: Turns, i: nat)
    requires WorldInv(w) && InStep(w) && Room(w) && channel.aead.Correct()
    requires Allowed(w, turns) && limit <= I64_MAX
    ensures var v := Round(w, channel, limit, turns, i);
      && WorldInv(v) && InStep(v) && Room(v) && Progress(w, v) && Allowed(v, turns)
      && SameSettings(v.local, w.local) && SameSettings(v.peer, w.peer)
      && Backlog(v) == SaturatingSub(Backlog(w), limit)
      && (Backlog(w) == 0 ==> v.local.disk == w.local.disk && v.peer.disk == w.peer.disk)
  {
    hide WorldInv, InStep, Room, Backlog, RunSyncOnce, Progress;
    if turns.local(i) {
      OwnRound(w, channel, limit, turns.clock(i));
    } else {
      var u := RunSyncOnce(w.Swap(), channel, limit, turns.clock(i)).world;
      SwapKeeps(w);
      OwnRound(w.Swap(), channel, limit, turns.clock(i));
      SwapKeeps(u);
      SwapKeepsProgress(w.Swap(), u);
    }
  }

  /** What `k` rounds can carry. */
  function Capacity(limit: nat, k: nat): nat {
    if k == 0 then 0 else Capacity(limit, k - 1) + limit
  }

  lemma {:induction false} CapacityIsProduct(limit: nat, k: nat)
    ensures Capacity(limit, k) == k * limit
  {
    if k != 0 {
      CapacityIsProduct(limit, k - 1);
      assert k * limit == (k - 1) * limit + limit;
    }
  }

  /** After `k` rounds, whoever made them, the backlog has shrunk by `k * limit`, or is gone. */
  lemma {:induction false} BacklogAfterRounds(w: World, channel: Channel, limit: U64, turns: Turns, k: nat)
    requires WorldInv(w) && InStep(w) && Room(w) && channel.aead.Correct()
    requires Allowed(w, turns) && limit <= I64_MAX
    ensures var v := AfterRounds(w, channel, limit, turns, k);
      && WorldInv(v) && InStep(v) && Room(v) && Allowed(v, turns)
      && SameSettings(v.local, w.local) && SameSettings(v.peer, w.peer)
      && Backlog(v) == SaturatingSub(Backlog(w), Capacity(limit, k))
      && Progress(w, v)
  {
    hide WorldInv, InStep, Room, Backlog, Round, Progress, Allowed;
    ProgressSteps(w, w, w);
    if k != 0 {
      BacklogAfterRounds(w, channel, limit, turns, k - 1);
      var v := AfterRounds(w, channel, limit, turns, k - 1);
      OneTurn(v, channel, limit, turns, k - 1);
      ProgressSteps(w, v, AfterRounds(w, channel, limit, turns, k));
    }
  }

  lemma {:induction false} RestingRounds(w: World, channel: Channel, limit: U64, turns: Turns, k: nat, j: nat)
    requires WorldInv(w) && InStep(w) && Room(w) && channel.aead.Correct()
    requires Allowed(w, turns) && limit <= I64_MAX
    requires k <= j && Backlog(AfterRounds(w, channel, limit, turns, k)) == 0
    ensures AfterRounds(w, channel, limit, turns, j).local.disk == AfterRounds(w, channel, limit, turns, k).local.disk
    ensures AfterRounds(w, channel, limit, turns, j).peer.disk == AfterRounds(w, channel, limit, turns, k).peer.disk
    ensures Backlog(AfterRounds(w, channel, limit, turns, j)) == 0
  {
    hide WorldInv, InStep, Room, Backlog, Round, Progress, Allowed;
    if k < j {
      RestingRounds(w, channel, limit, turns, k, j - 1);
      BacklogAfterRounds(w, channel, limit, turns, j - 1);
      OneTurn(AfterRounds(w, channel, limit, turns, j - 1), channel, limit, turns, j - 1);
    }
  }

  /** The plan has no transfer left. */
  ghost predicate NothingPlanned(w: World) {
    forall p ::
      var action := Planning.EntryFor(ManifestOf(w.local), ManifestOf(w.peer), w.local.mode, p).action;
      action != UploadToRemote && action != DownloadFromRemote
  }

  lemma NoBacklogMeansNothingPlanned(w: World)
    requires InStep(w) && w.local.mode == Bidirectional && Backlog(w) == 0
    ensures NothingPlanned(w)
  {
    hide Planning.EntryFor;
    forall p ensures
      var action := Planning.EntryFor(ManifestOf(w.local), ManifestOf(w.peer), Bidirectional, p).action;
      action != UploadToRemote && action != DownloadFromRemote
    {
      PlannedTransfersAreTheBacklog(w, p);
      assert p !in Wanted(w.peer, w.local) && p !in Wanted(w.local, w.peer);
    }
  }

  /** Every file is on both devices with the same bytes, or is in conflict, or its
      absence on the other side is recorded there. */
  ghost predicate Settled(w: World) {
    && (forall p :: p in w.local.disk ==> p in w.peer.tables.files)
    && (forall p :: p in w.peer.disk ==> p in w.local.tables.files)
  }

  /** ceil(backlog / limit) */
  function RoundsNeeded(backlog: nat, limit: nat): nat {
    if limit == 0 then 0 else (backlog + limit - 1) / limit
  }

  lemma CeilingIsEnough(n: nat, limit: nat)
    requires limit >= 1
    ensures RoundsNeeded(n, limit) * limit >= n
  {
  }

  /** Every file is on both devices, unless the other one had lost it before the run. */
  ghost predicate Complete(before: World, after: World) {
    && (forall p :: p in after.local.disk ==> p in after.peer.disk || p in Missing(before.peer))
    && (forall p :: p in after.peer.disk ==> p in after.local.disk || p in Missing(before.local))
  }

  lemma SettledIsComplete(before: World, after: World)
    requires Settled(after) && Progress(before, after)
    ensures Complete(before, after)
  {
    forall p | p in after.local.disk && p !in after.peer.disk ensures p in Missing(before.peer) {
      assert p in Missing(after.peer);
    }
    forall p | p in after.peer.disk && p !in after.local.disk ensures p in Missing(before.local) {
      assert p in Missing(after.local);
    }
  }

  /** Convergence: with a limit of at least one and room on both sides, and with
      either device making any of the rounds, after ceil(backlog / limit) of them no
      transfer is planned any more, every file is on both devices unless one of them
      had lost it before, nothing was removed or changed, and no later round changes
      a folder. */
  lemma Converges(w: World, channel: Channel, limit: U64, turns: Turns, j: nat)
    requires WorldInv(w) && InStep(w) && Room(w) && channel.aead.Correct()
    requires Allowed(w, turns) && 1 <= limit <= I64_MAX
    requires j >= RoundsNeeded(Backlog(w), limit)
    ensures var k := RoundsNeeded(Backlog(w), limit);
      var v := AfterRounds(w, channel, limit, turns, k);
      && Backlog(v) == 0 && InStep(v) && Progress(w, v) && Complete(w, v)
      && (w.local.mode == Bidirectional ==> NothingPlanned(v))
      && (w.peer.mode == Bidirectional ==> NothingPlanned(v.Swap()))
      && AfterRounds(w, channel, limit, turns, j).local.disk == v.local.disk
      && AfterRounds(w, channel, limit, turns, j).peer.disk == v.peer.disk
  {
    hide WorldInv, InStep, Room, Backlog, AfterRounds, NothingPlanned, Settled, RoundsNeeded, Complete, Progress, Allowed;
    var k := RoundsNeeded(Backlog(w), limit);
    BacklogAfterRounds(w, channel, limit, turns, k);
    CeilingIsEnough(Backlog(w), limit);
    CapacityIsProduct(limit, k);
    var v := AfterRounds(w, channel, limit, turns, k);
    if w.local.mode == Bidirectional {
      NoBacklogMeansNothingPlanned(v);
    }
    if w.peer.mode == Bidirectional {
      SwapKeeps(v);
      NoBacklogMeansNothingPlanned(v.Swap());
    }
    NoBacklogMeansSettled(v);
    SettledIsComplete(w, v);
    RestingRounds(w, channel, limit, turns, k, j);
  }

  lemma NoBacklogMeansSettled(w: World)
    requires Backlog(w) == 0
    ensures Settled(w)
  {
    assert forall p :: p in w.local.disk && p !in w.peer.tables.files ==> p in Wanted(w.local, w.peer);
    assert forall p :: p in w.peer.disk && p !in w.local.tables.files ==> p in Wanted(w.peer, w.local);
  }

  /** In a settled, agreeing pair the plan tells equal files from the others. */
  lemma SettledPlan(w: World, p: Path)
    requires InStep(w) && Settled(w) && (p in w.local.disk || p in w.peer.disk)
    ensures Planning.EntryFor(ManifestOf(w.local), ManifestOf(w.peer), w.local.mode, p).action ==
      if p !in w.local.disk then LocalMissingUnsynchronized
      else if p !in w.peer.disk then RemoteMissingUnsynchronized
      else if w.local.disk[p] == w.peer.disk[p] then InSync
      else Conflict
  {
  }
}
