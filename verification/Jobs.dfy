/** What holds of two devices and their jobs after any moves: soundness of both folders,
    the invariant of both queues, and what the jobs in flight still hold of the queue
    they were listed from. */
module Jobs {
  import opened Wrappers
  import opened Domain
  import opened StateTables
  import opened Devices
  import opened PeerCrypto
  import opened PeerServer
  import opened SyncEngine
  import opened QueueListing
  import opened Transfers
  import opened Runs
  import opened Reachability
  import opened Effects
  import opened Interleaving
  import Planning
  import QueueMachine
  import RelativePaths

  // ------------------------------------------------------------------
  // Operations in flight
  // ------------------------------------------------------------------

  /** A listed operation: a transfer, whose row is one too if it still exists. */
  ghost predicate InFlight(q: QueueMachine.Queue, op: Operation) {
    && op.IsTransfer() && QueueMachine.Lawful(op) && op.id < q.nextId
    && forall i :: 0 <= i < |q.operations| && q.operations[i].id == op.id ==> q.operations[i].IsTransfer()
  }

  lemma PlannedIds(q: QueueMachine.Queue, local: Manifest, remote: Manifest, mode: FolderMode, now: nat, i: nat)
    requires i < |QueueMachine.Apply(q, QueueMachine.Planned(local, remote, mode, now)).operations|
    ensures var row := QueueMachine.Apply(q, QueueMachine.Planned(local, remote, mode, now)).operations[i];
      row in q.operations || row.id >= q.nextId
  {
    hide Planning.Plan, QueueMachine.Lawful, Kept, PlanRows, QueueMachine.FreshRow;
    Planning.PlanNamesPeers(local, remote, mode);
    QueueMachine.PlannedRowsAreFresh(local, remote, mode, q.nextId, now);
    QueueMachine.KeptFacts(q.operations, remote.device);
  }

  lemma PlannedKeepsInFlight(q: QueueMachine.Queue, local: Manifest, remote: Manifest, mode: FolderMode, now: nat, op: Operation)
    requires InFlight(q, op)
    ensures InFlight(QueueMachine.Apply(q, QueueMachine.Planned(local, remote, mode, now)), op)
  {
    var r := QueueMachine.Apply(q, QueueMachine.Planned(local, remote, mode, now));
    QueueMachine.IdsOnlyGrow(q, QueueMachine.Planned(local, remote, mode, now));
    hide QueueMachine.Apply, QueueMachine.Lawful;
    forall i | 0 <= i < |r.operations| && r.operations[i].id == op.id ensures r.operations[i].IsTransfer() {
      PlannedIds(q, local, remote, mode, now, i);
    }
  }

  lemma StepKeepsInFlight(q: QueueMachine.Queue, e: QueueMachine.Event, op: Operation)
    requires QueueMachine.Inv(q) && InFlight(q, op)
    ensures InFlight(QueueMachine.Apply(q, e), op)
  {
    hide Planning.Plan, Kept, PlanRows;
    match e
    case Planned(local, remote, mode, now) => PlannedKeepsInFlight(q, local, remote, mode, now, op);
    case _ =>
  }

  lemma {:induction false} RunKeepsInFlight(q: QueueMachine.Queue, events: seq<QueueMachine.Event>, n: nat, op: Operation)
    requires n <= |events| && QueueMachine.Inv(q) && QueueMachine.Legal(q, events, n) && InFlight(q, op)
    ensures InFlight(QueueMachine.Run(q, events, n), op)
  {
    hide QueueMachine.Apply, QueueMachine.Inv, QueueMachine.Enabled, InFlight;
    if n != 0 {
      RunKeepsInFlight(q, events, n - 1, op);
      QueueMachine.RunKeepsInv(q, events, n - 1);
      StepKeepsInFlight(QueueMachine.Run(q, events, n - 1), events[n - 1], op);
    }
  }

  /** What a job holds: a manifest with plain names, and operations in flight. */
  ghost predicate JobInv(q: QueueMachine.Queue, stage: Stage) {
    match stage
    case RunFetched(manifest) => PlainManifest(manifest)
    case Running(manifest, todo) => PlainManifest(manifest) && forall i :: 0 <= i < |todo| ==> InFlight(q, todo[i])
    case _ => true
  }

  lemma JobInvKept(q: QueueMachine.Queue, r: QueueMachine.Queue, events: seq<QueueMachine.Event>, stage: Stage)
    requires QueueMachine.Inv(q) && IsQueueRun(q, r, events) && JobInv(q, stage)
    ensures JobInv(r, stage)
  {
    hide InFlight, QueueMachine.Inv, QueueMachine.Run, QueueMachine.Legal;
    if stage.Running? {
      forall i | 0 <= i < |stage.todo| ensures InFlight(r, stage.todo[i]) {
        RunKeepsInFlight(q, events, |events|, stage.todo[i]);
      }
    }
  }

  // ------------------------------------------------------------------
  // What a job's next stage does
  // ------------------------------------------------------------------

  lemma ScannedManifestIsPlain(d: Device)
    requires Sound(d)
    ensures PlainManifest(ManifestOf(Scan(d)))
  {
    ScanAgrees(d);
    hide ScanTables;
  }

  lemma MarkIsEnabled(q: QueueMachine.Queue, op: Operation, error: Option<TransferError>)
    requires InFlight(q, op)
    ensures QueueMachine.Enabled(QueueMachine.Apply(q, QueueMachine.StartedOne(op.id)), QueueMachine.Marked(op.id, error))
  {
  }

  /** The executor's two events for one operation. */
  lemma ExecuteEvents(q: QueueMachine.Queue, op: Operation, result: Result<nat, TransferError>, after: seq<Operation>)
    returns (events: seq<QueueMachine.Event>)
    requires InFlight(q, op) && Booked(q.operations, op, result, after)
    ensures IsQueueRun(q, QueueMachine.Queue(after, q.nextId), events)
    ensures forall mode :: EventsKeepMode(events, mode)
  {
    var error := if result.Ok? then None else Some(result.error);
    var start, mark := QueueMachine.StartedOne(op.id), QueueMachine.Marked(op.id, error);
    OneEvent(q, start);
    MarkIsEnabled(q, op, error);
    hide IsQueueRun, QueueMachine.Enabled, InFlight;
    OneMoreEvent(q, QueueMachine.Apply(q, start), [start], mark);
    events := [start] + [mark];
  }

  lemma ListedInFlight(q: QueueMachine.Queue, peer: DeviceId, limit: nat)
    requires QueueMachine.Inv(q)
    ensures var todo := ListFor(q.operations, peer, limit);
      && (forall op :: op in todo ==> op in q.operations)
      && (forall i :: 0 <= i < |todo| ==> InFlight(q, todo[i]))
  {
    hide ListPending;
    var todo := ListFor(q.operations, peer, limit);
    var downloads := ListPending(q.operations, peer, Download, limit);
    ListPendingFacts(q.operations, peer, Download, limit);
    ListPendingFacts(q.operations, peer, Upload, SaturatingSub(limit, |downloads|));
    forall i | 0 <= i < |todo| ensures InFlight(q, todo[i]) {
      assert todo[i] in todo;
      var k :| 0 <= k < |q.operations| && q.operations[k] == todo[i];
      assert QueueMachine.Lawful(q.operations[k]);
    }
  }

  /** The next stage of a job of `w.local`: events on its own queue, none on the peer's,
      and both folders keep what they should. */
  lemma ProceedFacts(w: World, channel: Channel, stage: Stage, now: nat, limit: U64) returns (events: seq<QueueMachine.Event>)
    requires WorldInv(w) && JobInv(QueueOf(w.local), stage) && channel.aead.Correct()
    ensures var next := Proceed(w, channel, stage, now, limit);
      && IsQueueRun(QueueOf(w.local), QueueOf(next.world.local), events) && EventsKeepMode(events, w.local.mode)
      && QueueOf(next.world.peer) == QueueOf(w.peer)
      && KeepsFolder(w.local, next.world.local) && KeepsFolder(w.peer, next.world.peer)
      && JobInv(QueueOf(next.world.local), next.stage)
  {
    hide Sound, QueueMachine.Inv, Scan, ExecuteOne, Keeps, InFlight, IsQueueRun, ListFor, Planning.Plan, Storable, PlanRows,
      Kept, PlainManifest, Booked;
    events := [];
    NoEvents(QueueOf(w.local));
    SameButQueue(w.local, w.local);
    SameButQueue(w.peer, w.peer);
    ScanKeeps(w.peer);
    KeepsIsKeepsFolder(w.peer, Scan(w.peer));
    ScanChangesTheIndexOnly(w.peer);
    match stage
    case PlanScanned(mine) =>
    case PlanFetched(mine, theirs) =>
      var plan := Planning.Plan(mine, theirs, w.local.mode);
      if Enqueue(w.local.tables, plan, now).Ok? {
        var e := QueueMachine.Planned(mine, theirs, w.local.mode, now);
        OneEvent(QueueOf(w.local), e);
        events := [e];
        SameButQueue(w.local, w.local.(tables := Enqueue(w.local.tables, plan, now).value));
      }
    case RunScanned => ScannedManifestIsPlain(w.peer);
    case RunFetched(manifest) => ListedInFlight(QueueOf(w.local), manifest.device, limit);
    case Running(manifest, todo) =>
      if todo != [] {
        ExecuteKeeps(w, channel, manifest, todo[0]);
        var o := ExecuteOne(w, channel, manifest, todo[0]);
        events := ExecuteEvents(QueueOf(w.local), todo[0], o.result, o.world.Operations());
        KeepsIsKeepsFolder(w.peer, o.world.peer);
        SameQueueWhenKept(w.peer, o.world.peer);
        JobInvKept(QueueOf(w.local), QueueOf(o.world.local), events, stage);
      }
    case Finished =>
  }

  lemma SameQueueWhenKept(before: Device, after: Device)
    requires Keeps(before, after)
    ensures QueueOf(after) == QueueOf(before)
  {
  }

  // ------------------------------------------------------------------
  // One move
  // ------------------------------------------------------------------

  function Side(w: World, byLocal: bool): Device {
    if byLocal then w.local else w.peer
  }

  /** The device whose move it is. */
  predicate ByLocal(s: System, m: Move) {
    match m
    case Do(byLocal, _) => byLocal
    case StartPlan(byLocal) => byLocal
    case StartRun(byLocal) => byLocal
    case Advance(j, _, _) => j < |s.jobs| && s.jobs[j].byLocal
  }

  ghost predicate Inv(s: System) {
    && WorldInv(s.world)
    && forall j :: 0 <= j < |s.jobs| ==> JobInv(QueueOf(Side(s.world, s.jobs[j].byLocal)), s.jobs[j].stage)
  }

  /** The moves that may change a folder on their own account. */
  predicate IsEditOrDelete(m: Move) {
    m.Do? && (m.command.Edit? || m.command.Delete?)
  }

  predicate IsResolution(m: Move) {
    m.Do? && m.command.ResolveBlocked?
  }

  /** What any move of `w.local` does to two devices. */
  ghost predicate MoveFacts(w: World, v: World, m: Move, events: seq<QueueMachine.Event>) {
    && Sound(v.local) && Sound(v.peer)
    && SameSettings(v.local, w.local) && SameSettings(v.peer, w.peer)
    && IsQueueRun(QueueOf(w.local), QueueOf(v.local), events)
    && (if IsResolution(m) then events == [QueueMachine.ResolvedOne(m.command.id, m.command.resolution)]
        else EventsKeepMode(events, w.local.mode))
    && QueueOf(v.peer) == QueueOf(w.peer)
    && (!IsEditOrDelete(m) ==> KeepsFolder(w.local, v.local) && KeepsFolder(w.peer, v.peer))
  }

  /** A deletion: what becomes of the local record is one of four things, and the peer
      answers at most one DELETE. */
  lemma DeleteCases(w: World, path: Path, scope: DeleteScope)
    ensures var r := DeleteFile(w, path, scope).world;
      && (r.local == w.local || r.local == Unlinked(w.local, path) || r.local == MarkedMissing(w.local, path)
          || r.local == Removed(w.local, path))
      && (r.peer == w.peer || r.peer == Scan(w.peer)
          || (path in w.local.tables.files && RecordedAs(w.local.tables.files[path], w.peer, path)
              && r.peer == Cleared(w.peer, path)))
  {
    hide ServeDelete, MarkDeletedLocally, Forget, Scan;
    if path in w.local.tables.files && w.local.tables.files[path].hash.Some? {
      DeleteHasShape(w.peer, path, w.local.tables.files[path].size, w.local.tables.files[path].hash.value);
    }
  }

  predicate RecordedAs(record: FileRecord, d: Device, path: Path) {
    path in d.disk && Matches(record.hash, Some(record.size), d.disk[path])
  }

  function Unlinked(d: Device, path: Path): Device {
    d.(disk := d.disk - {path})
  }

  function MarkedMissing(d: Device, path: Path): Device {
    d.(disk := d.disk - {path}, tables := MarkDeletedLocally(d.tables, path))
  }

  lemma RemovalsAreSound(d: Device, path: Path)
    requires Sound(d)
    ensures forall r :: r == Unlinked(d, path) || r == MarkedMissing(d, path) || r == Removed(d, path) ==>
      Sound(r) && SameSettings(r, d) && QueueOf(r) == QueueOf(d)
  {
  }

  lemma DeleteFacts(w: World, path: Path, scope: DeleteScope)
    requires Sound(w.local) && Sound(w.peer)
    ensures var r := DeleteFile(w, path, scope).world;
      && Sound(r.local) && SameSettings(r.local, w.local) && QueueOf(r.local) == QueueOf(w.local)
      && Sound(r.peer) && Keeps(w.peer, r.peer)
  {
    hide DeleteFile, Sound, Scan, Unlinked, MarkedMissing, Removed, Cleared, AgreesAt;
    DeleteCases(w, path, scope);
    RemovalsAreSound(w.local, path);
    ScanKeeps(w.peer);
    ClearedKeeps(w.peer, path);
    KeepsItself(w.peer);
  }

  lemma PerformFacts(w: World, byLocal: bool, c: Command) returns (events: seq<QueueMachine.Event>)
    requires WorldInv(w)
    ensures MoveFacts(w, Perform(w, c), Do(byLocal, c), events)
  {
    hide Sound, QueueMachine.Inv, IsQueueRun, Resolve, Retry, Scan, DeleteFile, Keeps;
    events := [];
    NoEvents(QueueOf(w.local));
    SameButQueue(w.peer, w.peer);
    match c
    case Edit(path, content) => EditIsSound(w.local, path, content);
    case ScanFolder =>
      ScanKeeps(w.local);
      KeepsIsKeepsFolder(w.local, Scan(w.local));
      KeepsFolderFacts(w.local, Scan(w.local));
      ScanChangesTheIndexOnly(w.local);
    case RetryFailed(device) =>
      var e := QueueMachine.RetriedFailed(device);
      OneEvent(QueueOf(w.local), e);
      events := [e];
      SameButQueue(w.local, Perform(w, c).local);
      KeepsFolderFacts(w.local, Perform(w, c).local);
    case ResolveBlocked(id, resolution) =>
      var e := QueueMachine.ResolvedOne(id, resolution);
      OneEvent(QueueOf(w.local), e);
      events := [e];
      SameButQueue(w.local, Perform(w, c).local);
      KeepsFolderFacts(w.local, Perform(w, c).local);
    case Delete(path, scope) =>
      DeleteFacts(w, path, scope);
      SameQueueWhenKept(w.peer, Perform(w, c).peer);
      KeepsIsKeepsFolder(w.peer, Perform(w, c).peer);
      KeepsFolderFacts(w.peer, Perform(w, c).peer);
  }

  lemma EditIsSound(d: Device, name: RelativePaths.PlainPath, content: Option<Content>)
    requires Sound(d)
    ensures Sound(EditFile(d, name, content)) && QueueOf(EditFile(d, name, content)) == QueueOf(d)
  {
    hide RelativePaths.Plain;
  }

  lemma ScanOwnFacts(w: World, m: Move) returns (events: seq<QueueMachine.Event>)
    requires WorldInv(w) && !m.Do?
    ensures MoveFacts(w, ScanOwn(w), m, events)
  {
    hide Sound, QueueMachine.Inv, IsQueueRun, Scan, Keeps;
    events := [];
    NoEvents(QueueOf(w.local));
    SameButQueue(w.peer, w.peer);
    ScanKeeps(w.local);
    KeepsIsKeepsFolder(w.local, Scan(w.local));
    KeepsFolderFacts(w.local, Scan(w.local));
    ScanChangesTheIndexOnly(w.local);
  }

  /** The changed or new job of `t`, if any, is given; the others keep what they hold. */
  lemma JobsKept(s: System, t: System, here: bool, m: Move, events: seq<QueueMachine.Event>)
    requires Inv(s) && MoveFacts(Turn(s.world, here), Turn(t.world, here), m, events) && |s.jobs| <= |t.jobs|
    requires forall i :: 0 <= i < |t.jobs| ==>
      || (i < |s.jobs| && t.jobs[i] == s.jobs[i])
      || JobInv(QueueOf(Side(t.world, t.jobs[i].byLocal)), t.jobs[i].stage)
    ensures Inv(t)
  {
    hide Sound, QueueMachine.Inv, IsQueueRun, KeepsFolder, JobInv, EventsKeepMode;
    var w, v := Turn(s.world, here), Turn(t.world, here);
    RunKeepsQueue(QueueOf(w.local), QueueOf(v.local), events);
    forall i | 0 <= i < |t.jobs| ensures JobInv(QueueOf(Side(t.world, t.jobs[i].byLocal)), t.jobs[i].stage) {
      if i < |s.jobs| && t.jobs[i] == s.jobs[i] && t.jobs[i].byLocal == here {
        JobInvKept(QueueOf(w.local), QueueOf(v.local), events, s.jobs[i].stage);
      }
    }
  }

  lemma RunKeepsQueue(q: QueueMachine.Queue, r: QueueMachine.Queue, events: seq<QueueMachine.Event>)
    requires QueueMachine.Inv(q) && IsQueueRun(q, r, events)
    ensures QueueMachine.Inv(r)
  {
    QueueMachine.RunKeepsInv(q, events, |events|);
  }

  lemma FirstStages(q: QueueMachine.Queue, mine: Manifest)
    ensures JobInv(q, PlanScanned(mine)) && JobInv(q, RunScanned)
  {
  }

  lemma NoEventsKeepMode(mode: FolderMode)
    ensures EventsKeepMode([], mode)
  {
  }

  /** A move of either device: events on its own queue, none on the other's; both folders
      keep what they should; and so does every job. */
  lemma MakeFacts(s: System, channel: Channel, m: Move) returns (events: seq<QueueMachine.Event>)
    requires Inv(s) && channel.aead.Correct()
    ensures MoveFacts(Turn(s.world, ByLocal(s, m)), Turn(Make(s, channel, m).world, ByLocal(s, m)), m, events)
    ensures Inv(Make(s, channel, m))
  {
    hide Sound, QueueMachine.Inv, IsQueueRun, Perform, Scan, Proceed, Keeps, JobInv, EventsKeepMode;
    var here := ByLocal(s, m);
    var w, t := Turn(s.world, here), Make(s, channel, m);
    match m {
    case Do(_, command) => events := PerformFacts(w, here, command);
    case StartPlan(_) =>
      events := ScanOwnFacts(w, m);
      FirstStages(QueueOf(t.world.local), ManifestOf(ScanOwn(w).local));
      FirstStages(QueueOf(t.world.peer), ManifestOf(ScanOwn(w).local));
    case StartRun(_) =>
      events := ScanOwnFacts(w, m);
      FirstStages(QueueOf(t.world.local), ManifestOf(ScanOwn(w).local));
      FirstStages(QueueOf(t.world.peer), ManifestOf(ScanOwn(w).local));
    case Advance(j, now, limit) =>
      if j < |s.jobs| {
        events := ProceedFacts(w, channel, s.jobs[j].stage, now, limit);
        var next := Proceed(w, channel, s.jobs[j].stage, now, limit);
        KeepsFolderFacts(w.local, next.world.local);
        KeepsFolderFacts(w.peer, next.world.peer);
      } else {
        events := [];
        NoEvents(QueueOf(w.local));
        SameButQueue(w.local, w.local);
        SameButQueue(w.peer, w.peer);
        NoEventsKeepMode(w.local.mode);
      }
    }
    JobsKept(s, t, here, m, events);
  }
}
