/** One-way folders stay one-way under any moves, and a round that nothing comes in
    between loses no file whatever was resolved before it. */
module Guarantees {
  import opened Wrappers
  import opened Domain
  import opened StateTables
  import opened Devices
  import opened PeerServer
  import opened SyncEngine
  import opened QueueListing
  import opened Runs
  import opened Reachability
  import opened Effects
  import opened Interleaving
  import opened Jobs
  import opened Invariants
  import Consents
  import Planning
  import QueueMachine
  import Rounds

  // ------------------------------------------------------------------
  // One-way folders
  // ------------------------------------------------------------------

  /** No transfer of the forbidden direction is left to execute. */
  ghost predicate StageObeys(stage: Stage, mode: FolderMode) {
    stage.Running? ==> forall i :: 0 <= i < |stage.todo| ==> Some(stage.todo[i].kind) != QueueMachine.ForbiddenKind(mode)
  }

  ghost predicate JobsObey(s: System, byLocal: bool, mode: FolderMode) {
    forall j :: 0 <= j < |s.jobs| && s.jobs[j].byLocal == byLocal ==> StageObeys(s.jobs[j].stage, mode)
  }

  /** Neither the queue of the device nor a job of it holds a transfer of the forbidden
      direction. */
  ghost predicate IsOneWay(s: System, byLocal: bool) {
    var d := Side(s.world, byLocal);
    QueueMachine.ObeysMode(QueueOf(d), d.mode) && JobsObey(s, byLocal, d.mode)
  }

  lemma ProceedObeys(w: World, channel: Channel, stage: Stage, now: nat, limit: U64, mode: FolderMode)
    requires QueueMachine.Inv(QueueOf(w.local)) && QueueMachine.ObeysMode(QueueOf(w.local), mode) && StageObeys(stage, mode)
    ensures StageObeys(Proceed(w, channel, stage, now, limit).stage, mode)
  {
    hide ListFor, ExecuteOne, Scan, Enqueue, QueueMachine.Inv, InFlight;
    if stage.RunFetched? {
      ListedInFlight(QueueOf(w.local), stage.manifest.device, limit);
      var todo := ListFor(w.Operations(), stage.manifest.device, limit);
      forall i | 0 <= i < |todo| ensures Some(todo[i].kind) != QueueMachine.ForbiddenKind(mode) {
        assert todo[i] in todo;
        var k :| 0 <= k < |w.Operations()| && w.Operations()[k] == todo[i];
        assert Some(QueueOf(w.local).operations[k].kind) != QueueMachine.ForbiddenKind(mode);
      }
    }
  }

  lemma StartsObey(mode: FolderMode, mine: Manifest)
    ensures StageObeys(PlanScanned(mine), mode) && StageObeys(RunScanned, mode)
  {
  }

  lemma ModeStays(s: System, channel: Channel, m: Move, byLocal: bool)
    requires Inv(s) && channel.aead.Correct()
    ensures Side(Make(s, channel, m).world, byLocal).mode == Side(s.world, byLocal).mode
  {
    hide Make, Inv, MoveFacts;
    var events := MakeFacts(s, channel, m);
    MoveKeepsSettings(s, channel, m, events);
  }

  lemma EventsObeyMode(before: QueueMachine.Queue, after: QueueMachine.Queue,
                       events: seq<QueueMachine.Event>, mode: FolderMode)
    requires IsQueueRun(before, after, events) && EventsKeepMode(events, mode) && QueueMachine.ObeysMode(before, mode)
    ensures QueueMachine.ObeysMode(after, mode)
  {
    QueueMachine.RunObeysMode(before, events, |events|, mode);
  }

  lemma JobsStayObedient(s: System, channel: Channel, m: Move, byLocal: bool, mode: FolderMode)
    requires Inv(s) && JobsObey(s, byLocal, mode) && QueueMachine.ObeysMode(QueueOf(Side(s.world, byLocal)), mode)
    ensures JobsObey(Make(s, channel, m), byLocal, mode)
  {
    hide Perform, Scan, Proceed, StageObeys, QueueMachine.ObeysMode, QueueMachine.Inv, Sound, JobInv;
    if m.Advance? && m.job < |s.jobs| && s.jobs[m.job].byLocal == byLocal {
      ProceedObeys(Turn(s.world, byLocal), channel, s.jobs[m.job].stage, m.now, m.limit, mode);
    }
    if m.StartPlan? || m.StartRun? {
      StartsObey(mode, ManifestOf(ScanOwn(Turn(s.world, m.byLocal)).local));
    }
  }

  lemma MoveObeys(s: System, channel: Channel, m: Move, byLocal: bool)
    requires Inv(s) && channel.aead.Correct() && IsOneWay(s, byLocal) && !(IsResolution(m) && m.byLocal == byLocal)
    ensures IsOneWay(Make(s, channel, m), byLocal)
  {
    hide Make, Inv, EventsKeepMode, JobsObey, QueueMachine.ObeysMode, IsQueueRun;
    var d, after := Side(s.world, byLocal), Side(Make(s, channel, m).world, byLocal);
    var events := MoveEvents(s, channel, m, byLocal);
    EventsObeyMode(QueueOf(d), QueueOf(after), events, d.mode);
    ModeStays(s, channel, m, byLocal);
    JobsStayObedient(s, channel, m, byLocal, d.mode);
  }

  /** The folder that an agent of this mode must not write: its own under
      upload-only, the peer's under download-only. */
  predicate ProtectedSame(mode: FolderMode, before: World, after: World) {
    match mode
    case Bidirectional => true
    case UploadOnly => after.local.disk == before.local.disk
    case DownloadOnly => after.peer.disk == before.peer.disk
  }

  lemma ExecutionProtects(w: World, channel: Channel, manifest: Manifest, op: Operation)
    requires channel.aead.Correct() && op.IsTransfer() && Some(op.kind) != QueueMachine.ForbiddenKind(w.local.mode)
    ensures ProtectedSame(w.local.mode, w, ExecuteOne(w, channel, manifest, op).world)
  {
    hide ExecuteOne, Effect, Booked, StaysAt;
    ExecuteHasEffect(w, channel, manifest, op);
    var v := ExecuteOne(w, channel, manifest, op).world;
    LocalLoss(w, manifest, op, v, op.path);
    PeerLoss(w, manifest, op, v, op.path);
  }

  /** A move of the device other than an edit or a deletion leaves the protected folder alone. */
  lemma MoveProtects(s: System, channel: Channel, m: Move)
    requires Inv(s) && channel.aead.Correct() && IsOneWay(s, ByLocal(s, m)) && !IsEditOrDelete(m)
    ensures var here := ByLocal(s, m);
      ProtectedSame(Side(s.world, here).mode, Turn(s.world, here), Turn(Make(s, channel, m).world, here))
  {
    hide Inv, Proceed, QueueMachine.ObeysMode, Resolve, Retry, ScanTables;
    if m.Advance? && m.job < |s.jobs| {
      var stage, w := s.jobs[m.job].stage, Turn(s.world, s.jobs[m.job].byLocal);
      if stage.Running? && stage.todo != [] {
        Consents.JobHoldsTransfers(s, m.job, 0);
        ExecutionProtects(w, channel, stage.manifest, stage.todo[0]);
        ExecutingStage(w, channel, stage, m.now, m.limit);
      } else {
        Consents.OtherStagesLoseNothing(w, channel, stage, m.now, m.limit);
      }
    }
  }

  lemma ExecutingStage(w: World, channel: Channel, stage: Stage, now: nat, limit: U64)
    requires stage.Running? && stage.todo != []
    ensures Proceed(w, channel, stage, now, limit).world == ExecuteOne(w, channel, stage.manifest, stage.todo[0]).world
  {
  }

  /** Without resolutions by its user, a one-way folder that starts with an empty queue
      never holds a transfer of the other direction, in its queue or in a job, whatever
      both devices do; and in every state so reached no move of an upload-only agent, its
      edits and deletions apart, changes its own folder, and none of a download-only agent
      the peer's. */
  lemma {:induction false} OneWayFoldersHold(s: System, channel: Channel, moves: seq<Move>, n: nat, byLocal: bool)
    requires n <= |moves| && Inv(s) && channel.aead.Correct()
    requires s.jobs == [] && Side(s.world, byLocal).tables.operations == []
    requires NothingResolved(moves, n, byLocal)
    ensures var t := Reach(s, channel, moves, n);
      && Side(t.world, byLocal).mode == Side(s.world, byLocal).mode && IsOneWay(t, byLocal)
      && forall m :: ByLocal(t, m) == byLocal && !IsEditOrDelete(m) ==>
           ProtectedSame(Side(t.world, byLocal).mode, Turn(t.world, byLocal), Turn(Make(t, channel, m).world, byLocal))
  {
    hide Make, Inv, ProtectedSame, IsOneWay, SameSettings;
    var t := Reach(s, channel, moves, n);
    ReachableInv(s, channel, moves, n);
    if n == 0 {
      EmptyIsOneWay(s, byLocal);
    } else {
      OneWayFoldersHold(s, channel, moves, n - 1, byLocal);
      ReachableInv(s, channel, moves, n - 1);
      MoveObeys(Reach(s, channel, moves, n - 1), channel, moves[n - 1], byLocal);
      ModeStays(Reach(s, channel, moves, n - 1), channel, moves[n - 1], byLocal);
    }
    forall m | ByLocal(t, m) == byLocal && !IsEditOrDelete(m)
      ensures ProtectedSame(Side(t.world, byLocal).mode, Turn(t.world, byLocal), Turn(Make(t, channel, m).world, byLocal))
    {
      MoveProtects(t, channel, m);
    }
  }

  lemma EmptyIsOneWay(s: System, byLocal: bool)
    requires s.jobs == [] && Side(s.world, byLocal).tables.operations == []
    ensures IsOneWay(s, byLocal)
  {
  }

  // ------------------------------------------------------------------
  // A round in one piece
  // ------------------------------------------------------------------

  lemma NoConsentNoLoss(before: map<Path, Content>, after: map<Path, Content>, ops: seq<Operation>, kind: OperationKind)
    requires LostOnlyByConsent(before, after, ops, kind)
    requires forall i :: 0 <= i < |ops| ==> !ops[i].Consented()
    ensures Grows(before, after)
  {
  }

  lemma PlanningChangesNoFile(w: World, now: nat)
    ensures EnqueuePlan(w, now).world.local.disk == w.local.disk
    ensures EnqueuePlan(w, now).world.peer.disk == w.peer.disk
  {
  }

  lemma SameFilesGrow(disk: map<Path, Content>)
    ensures Grows(disk, disk)
  {
  }

  /** What a fresh plan leaves pending for the peer carries no consent. */
  lemma FreshRunListHasNoConsent(w: World, now: nat, limit: nat)
    requires WorldInv(w) && EnqueuePlan(w, now).result.Ok?
    ensures var ops := RunList(ScanBoth(EnqueuePlan(w, now).world), limit);
      forall i :: 0 <= i < |ops| ==> !ops[i].Consented()
  {
    hide RunList, QueueMachine.Inv, Sound, Scan, Storable, PlanRows, Kept, QueueMachine.Apply, DistinctIds;
    ScanChangesTheIndexOnly(w.local);
    ScanChangesTheIndexOnly(w.peer);
    var s, q := ScanBoth(w), EnqueuePlan(w, now).world;
    ScanChangesTheIndexOnly(q.local);
    ScanChangesTheIndexOnly(q.peer);
    PlannedQueue(w, now);
    Rounds.ActionQueueIsDistinct(w, now);
    var ops := RunList(ScanBoth(q), limit);
    RunListFacts(ScanBoth(q), limit);
    forall i | 0 <= i < |ops| ensures !ops[i].Consented() {
      assert ops[i] in ops;
      var k :| 0 <= k < |q.Operations()| && q.Operations()[k] == ops[i];
      QueueMachine.ConsentEndsWithTheNextPlan(QueueOf(w.local), ManifestOf(s.local), ManifestOf(s.peer), w.local.mode, now, k);
    }
  }

  lemma PlannedQueue(w: World, now: nat)
    requires EnqueuePlan(w, now).result.Ok?
    ensures var s := ScanBoth(w);
      QueueOf(EnqueuePlan(w, now).world.local)
      == QueueMachine.Apply(QueueOf(w.local), QueueMachine.Planned(ManifestOf(s.local), ManifestOf(s.peer), w.local.mode, now))
  {
    hide Scan, Storable, PlanRows, Kept, Planning.Plan;
    ScanChangesTheIndexOnly(w.local);
  }

  /** A round that nothing comes in between removes and changes no file, whatever the queue held before it:
      resolved operations do not outlive its plan. */
  lemma RoundLosesNothing(w: World, channel: Channel, limit: U64, now: nat)
    requires WorldInv(w) && channel.aead.Correct()
    ensures var r := RunSyncOnce(w, channel, limit, now).world;
      Grows(w.local.disk, r.local.disk) && Grows(w.peer.disk, r.peer.disk)
  {
    hide RunList, RunSyncQueue, EnqueuePlan, LostOnlyByConsent, QueueMachine.Inv, Sound, Scan, Grows;
    PlanningChangesNoFile(w, now);
    var queued := EnqueuePlan(w, now);
    SameFilesGrow(w.local.disk);
    SameFilesGrow(w.peer.disk);
    if queued.result.Ok? {
      PlanKeepsInv(w, now);
      var q := queued.world;
      QueueRunGuarantees(q, channel, limit);
      FreshRunListHasNoConsent(w, now, limit);
      var r := RunSyncQueue(q, channel, limit).world;
      NoConsentNoLoss(w.local.disk, r.local.disk, RunList(ScanBoth(q), limit), Download);
      NoConsentNoLoss(w.peer.disk, r.peer.disk, RunList(ScanBoth(q), limit), Upload);
    }
  }
}
