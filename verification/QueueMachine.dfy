/** The life of queued operations: which changes the agent can make to the
    sync_operations table, and what holds after any sequence of them. */
module QueueMachine {
  import opened Wrappers
  import opened Domain
  import opened StateTables
  import Ordering
  import Planning

  datatype Queue = Queue(operations: seq<Operation>, nextId: OperationId)

  const EmptyQueue := Queue([], 0)

  /** One change of the table. `Marked` is the outcome the executor records. */
  datatype Event =
    | Planned(local: Manifest, remote: Manifest, mode: FolderMode, now: nat)
    | StartedOne(id: OperationId)
    | Marked(id: OperationId, error: Option<TransferError>)
    | RetriedFailed(device: Option<DeviceId>)
    | ResolvedOne(id: OperationId, resolution: Resolution)

  function Apply(q: Queue, e: Event): Queue {
    match e
    case Planned(local, remote, mode, now) =>
      var plan := Planning.Plan(local, remote, mode);
      var rows := PlanRows(plan, q.nextId, now);
      Queue(Kept(q.operations, plan.remoteDevice) + rows, q.nextId + |rows|)
    case StartedOne(id) => q.(operations := MarkStarted(q.operations, id))
    case Marked(id, error) =>
      q.(operations := SetStatus(q.operations, id, if error.None? then Done else Failed, error))
    case RetriedFailed(device) => q.(operations := Retry(q.operations, device))
    case ResolvedOne(id, resolution) =>
      var resolved := Resolve(q.operations, id, resolution);
      if resolved.Ok? then q.(operations := resolved.value) else q
  }

  /** The executor marks only operations it has listed, which are transfers; another run
      may have marked the row in the meantime. */
  ghost predicate Enabled(q: Queue, e: Event) {
    e.Marked? ==> forall i :: 0 <= i < |q.operations| && q.operations[i].id == e.id ==> q.operations[i].IsTransfer()
  }

  function Run(q: Queue, events: seq<Event>, n: nat): Queue
    requires n <= |events|
  {
    if n == 0 then q else Apply(Run(q, events, n - 1), events[n - 1])
  }

  ghost predicate Legal(q: Queue, events: seq<Event>, n: nat)
    requires n <= |events|
  {
    n == 0 || (Legal(q, events, n - 1) && Enabled(Run(q, events, n - 1), events[n - 1]))
  }

  // ------------------------------------------------------------------
  // The invariant
  // ------------------------------------------------------------------

  /** Pending, done and failed rows are transfers, blocked ones are not; and a
      transfer nobody consented to records nothing about the side it writes. */
  predicate Lawful(op: Operation) {
    && (op.status == Blocked <==> !op.IsTransfer())
    && (op.kind == Upload && !op.Consented() ==> op.remoteSize == None)
    && (op.kind == Download && !op.Consented() ==> op.localSize == None)
    && (op.reason == UserSelectedRemote ==> op.kind == Download)
    && (op.reason == UserSelectedLocal ==> op.kind == Upload)
  }

  /** The kind of transfer a one-way folder never queues by itself. */
  function ForbiddenKind(mode: FolderMode): Option<OperationKind> {
    match mode
    case Bidirectional => None
    case UploadOnly => Some(Download)
    case DownloadOnly => Some(Upload)
  }

  ghost predicate FreshIds(q: Queue) {
    && (forall i :: 0 <= i < |q.operations| ==> q.operations[i].id < q.nextId)
    && (forall i, j :: 0 <= i < j < |q.operations| ==> q.operations[i].id != q.operations[j].id)
  }

  ghost predicate Inv(q: Queue) {
    && FreshIds(q)
    && forall i :: 0 <= i < |q.operations| ==> Lawful(q.operations[i])
  }

  lemma {:induction false} KeptFacts(ops: seq<Operation>, peer: DeviceId)
    ensures forall i :: 0 <= i < |Kept(ops, peer)| ==>
      Kept(ops, peer)[i] in ops && !ReplacedBy(Kept(ops, peer)[i], peer)
    ensures forall op :: op in ops && !ReplacedBy(op, peer) ==> op in Kept(ops, peer)
  {
    if ops != [] {
      KeptFacts(ops[1..], peer);
      assert ops == [ops[0]] + ops[1..];
    }
  }

  lemma {:induction false} KeptIds(ops: seq<Operation>, peer: DeviceId)
    requires forall i, j :: 0 <= i < j < |ops| ==> ops[i].id != ops[j].id
    ensures forall i, j :: 0 <= i < j < |Kept(ops, peer)| ==> Kept(ops, peer)[i].id != Kept(ops, peer)[j].id
  {
    if ops != [] {
      KeptIds(ops[1..], peer);
      KeptFacts(ops[1..], peer);
      var rest := Kept(ops[1..], peer);
      forall j | 0 <= j < |rest| ensures rest[j].id != ops[0].id {
        var k :| 0 <= k < |ops[1..]| && ops[1..][k] == rest[j];
        assert ops[k + 1] == rest[j];
      }
    }
  }

  /** What every row made by the planner satisfies. */
  predicate FreshRow(op: Operation, mode: FolderMode) {
    Lawful(op) && !op.Consented() && op.retryCount == 0 && Some(op.kind) != ForbiddenKind(mode)
  }

  lemma EntryRowIsFresh(local: Manifest, remote: Manifest, mode: FolderMode, path: Path, id: OperationId, now: nat)
    requires Planning.EntryFor(local, remote, mode, path).action != InSync
    ensures FreshRow(RowFor(Planning.EntryFor(local, remote, mode, path), remote.device, id, now), mode)
  {
  }

  lemma PlannedRowsAreFresh(local: Manifest, remote: Manifest, mode: FolderMode, id: OperationId, now: nat)
    ensures var rows := PlanRows(Planning.Plan(local, remote, mode), id, now);
      forall i :: 0 <= i < |rows| ==> FreshRow(rows[i], mode) && rows[i].id == id + i
  {
    hide Planning.Plan, FreshRow, Planning.EntryFor;
    var plan := Planning.Plan(local, remote, mode);
    Planning.PlanNamesPeers(local, remote, mode);
    var a := Actionable(plan.entries, |plan.entries|);
    assert forall e :: e in a ==> e in plan.entries && e.action != InSync by {
      ActionableFacts(plan.entries, |plan.entries|);
      assert plan.entries[..|plan.entries|] == plan.entries;
    }
    forall i | 0 <= i < |a| ensures FreshRow(RowFor(a[i], remote.device, id + i, now), mode) {
      assert a[i] in a;
      Planning.PlanHolds(local, remote, mode, a[i]);
      EntryRowIsFresh(local, remote, mode, a[i].path, id + i, now);
    }
  }

  lemma PlannedKeepsInv(q: Queue, local: Manifest, remote: Manifest, mode: FolderMode, now: nat)
    requires Inv(q)
    ensures Inv(Apply(q, Planned(local, remote, mode, now)))
  {
    hide Planning.Plan, Kept, PlanRows, Lawful;
    Planning.PlanNamesPeers(local, remote, mode);
    KeptFacts(q.operations, remote.device);
    KeptIds(q.operations, remote.device);
    PlannedRowsAreFresh(local, remote, mode, q.nextId, now);
  }

  lemma StepKeepsInv(q: Queue, e: Event)
    requires Inv(q) && Enabled(q, e)
    ensures Inv(Apply(q, e))
  {
    hide Planning.Plan, Kept, PlanRows;
    match e
    case Planned(local, remote, mode, now) => PlannedKeepsInv(q, local, remote, mode, now);
    case ResolvedOne(id, resolution) =>
      var found := Find(q.operations, id);
    case _ =>
  }

  /** In every reachable state pending operations are transfers, blocked ones are
      not, ids are unique, and consent is visible in the row. */
  lemma {:induction false} RunKeepsInv(q: Queue, events: seq<Event>, n: nat)
    requires n <= |events| && Inv(q) && Legal(q, events, n)
    ensures Inv(Run(q, events, n))
  {
    hide Apply, Inv, Enabled;
    if n != 0 {
      RunKeepsInv(q, events, n - 1);
      StepKeepsInv(Run(q, events, n - 1), events[n - 1]);
    }
  }

  // ------------------------------------------------------------------
  // Retries
  // ------------------------------------------------------------------

  function StatusOf(q: Queue, id: OperationId): Option<OperationStatus> {
    var found := Find(q.operations, id);
    if found.Some? then Some(found.value.status) else None
  }

  /** How often the operation went from failed back to pending in the first `n` steps. */
  function Moves(q: Queue, events: seq<Event>, n: nat, id: OperationId): nat
    requires n <= |events|
  {
    if n == 0 then 0
    else
      var back := StatusOf(Run(q, events, n - 1), id) == Some(Failed) && StatusOf(Run(q, events, n), id) == Some(Pending);
      Moves(q, events, n - 1, id) + (if back then 1 else 0)
  }

  lemma FindsTheRow(q: Queue, i: nat)
    requires FreshIds(q) && i < |q.operations|
    ensures Find(q.operations, q.operations[i].id) == Some(q.operations[i])
  {
    var found := Find(q.operations, q.operations[i].id);
    var k :| 0 <= k < |q.operations| && q.operations[k] == found.value;
    assert k == i;
  }

  lemma UnknownId(q: Queue, id: OperationId)
    requires FreshIds(q) && id >= q.nextId
    ensures Find(q.operations, id) == None
  {
    var found := Find(q.operations, id);
  }

  /** A row of the next state is new, or it continues the row with its id: then
      a mode-blocked row stays one, and the retry count grows exactly when the
      row goes from failed to pending. */
  predicate Continues(before: Operation, after: Operation) {
    && after.id == before.id && after.path == before.path && after.remoteDevice == before.remoteDevice
    && (before.kind == BlockedByMode <==> after.kind == BlockedByMode)
    && after.retryCount == before.retryCount + (if before.status == Failed && after.status == Pending then 1 else 0)
  }

  lemma StepContinues(q: Queue, e: Event, i: nat)
    requires Inv(q) && Enabled(q, e) && i < |Apply(q, e).operations|
    ensures var row := Apply(q, e).operations[i];
      || (row.id >= q.nextId && row.retryCount == 0)
      || (exists k :: 0 <= k < |q.operations| && Continues(q.operations[k], row))
  {
    var row := Apply(q, e).operations[i];
    match e
    case Planned(local, remote, mode, now) =>
      PlannedContinues(q, local, remote, mode, now, i);
    case ResolvedOne(id, resolution) =>
      if q.operations[i].id == id {
        FindsTheRow(q, i);
      }
      assert Continues(q.operations[i], row);
    case _ =>
      assert Continues(q.operations[i], row);
  }

  lemma PlannedContinues(q: Queue, local: Manifest, remote: Manifest, mode: FolderMode, now: nat, i: nat)
    requires Inv(q) && i < |Apply(q, Planned(local, remote, mode, now)).operations|
    ensures var row := Apply(q, Planned(local, remote, mode, now)).operations[i];
      || (row.id >= q.nextId && row.retryCount == 0)
      || (exists k :: 0 <= k < |q.operations| && Continues(q.operations[k], row))
  {
    hide Lawful, Planning.Plan;
    var plan := Planning.Plan(local, remote, mode);
    var kept := Kept(q.operations, plan.remoteDevice);
    KeptFacts(q.operations, plan.remoteDevice);
    PlannedRowsAreFresh(local, remote, mode, q.nextId, now);
    if i < |kept| {
      var k :| 0 <= k < |q.operations| && q.operations[k] == kept[i];
      assert Continues(q.operations[k], kept[i]);
    }
  }

  lemma IdsOnlyGrow(q: Queue, e: Event)
    ensures Apply(q, e).nextId >= q.nextId
  {
  }

  lemma {:induction false} NoMovesBeforeInsertion(q: Queue, events: seq<Event>, n: nat, id: OperationId)
    requires n <= |events| && Inv(q) && Legal(q, events, n) && id >= Run(q, events, n).nextId
    ensures Moves(q, events, n, id) == 0
  {
    hide Apply, Inv, Enabled;
    if n != 0 {
      var before := Run(q, events, n - 1);
      IdsOnlyGrow(before, events[n - 1]);
      RunKeepsInv(q, events, n - 1);
      NoMovesBeforeInsertion(q, events, n - 1, id);
      InvHasFreshIds(before);
      UnknownId(before, id);
    }
  }

  lemma InvHasFreshIds(q: Queue)
    requires Inv(q)
    ensures FreshIds(q)
  {
  }

  /** `retry_count` is the number of moves from failed back to pending. */
  lemma {:induction false} RetryCountIsMoves(events: seq<Event>, n: nat, i: nat)
    requires n <= |events| && Legal(EmptyQueue, events, n) && i < |Run(EmptyQueue, events, n).operations|
    ensures var row := Run(EmptyQueue, events, n).operations[i];
      row.retryCount == Moves(EmptyQueue, events, n, row.id)
  {
    hide Apply, Inv, Enabled, Continues;
    assert Inv(EmptyQueue) by { EmptyQueueInv(); }
    if n != 0 {
      var before, after := Run(EmptyQueue, events, n - 1), Run(EmptyQueue, events, n);
      var row := after.operations[i];
      RunKeepsInv(EmptyQueue, events, n - 1);
      RunKeepsInv(EmptyQueue, events, n);
      InvHasFreshIds(before);
      InvHasFreshIds(after);
      FindsTheRow(after, i);
      StepContinues(before, events[n - 1], i);
      if row.id >= before.nextId {
        NoMovesBeforeInsertion(EmptyQueue, events, n - 1, row.id);
        UnknownId(before, row.id);
        NewRowHasNoRetries(before, events[n - 1], i);
      } else {
        var k :| 0 <= k < |before.operations| && Continues(before.operations[k], row);
        ContinuesFacts(before.operations[k], row);
        FindsTheRow(before, k);
        RetryCountIsMoves(events, n - 1, k);
      }
    }
  }

  lemma EmptyQueueInv()
    ensures Inv(EmptyQueue)
  {
  }

  lemma ContinuesFacts(before: Operation, after: Operation)
    requires Continues(before, after)
    ensures after.id == before.id && (before.kind == BlockedByMode <==> after.kind == BlockedByMode)
    ensures after.retryCount == before.retryCount + (if before.status == Failed && after.status == Pending then 1 else 0)
  {
  }

  lemma NewRowHasNoRetries(q: Queue, e: Event, i: nat)
    requires Inv(q) && Enabled(q, e) && i < |Apply(q, e).operations| && Apply(q, e).operations[i].id >= q.nextId
    ensures Apply(q, e).operations[i].retryCount == 0
  {
    StepContinues(q, e, i);
  }

  // ------------------------------------------------------------------
  // One-way folders, and what a new plan replaces
  // ------------------------------------------------------------------

  ghost predicate ObeysMode(q: Queue, mode: FolderMode) {
    forall i :: 0 <= i < |q.operations| ==> Some(q.operations[i].kind) != ForbiddenKind(mode)
  }

  predicate KeepsMode(e: Event, mode: FolderMode) {
    !e.ResolvedOne? && (e.Planned? ==> e.mode == mode)
  }

  /** After a plan every row is an old one or a fresh one. */
  lemma PlannedOldOrFresh(q: Queue, local: Manifest, remote: Manifest, mode: FolderMode, now: nat, i: nat)
    requires i < |Apply(q, Planned(local, remote, mode, now)).operations|
    ensures var row := Apply(q, Planned(local, remote, mode, now)).operations[i]; row in q.operations || FreshRow(row, mode)
  {
    hide Planning.Plan, Lawful, Kept, PlanRows, FreshRow;
    Planning.PlanNamesPeers(local, remote, mode);
    PlannedRowsAreFresh(local, remote, mode, q.nextId, now);
    KeptFacts(q.operations, remote.device);
  }

  lemma PlannedObeysMode(q: Queue, local: Manifest, remote: Manifest, mode: FolderMode, now: nat)
    requires ObeysMode(q, mode)
    ensures ObeysMode(Apply(q, Planned(local, remote, mode, now)), mode)
  {
    hide Apply, Lawful;
    var after := Apply(q, Planned(local, remote, mode, now)).operations;
    forall i | 0 <= i < |after| ensures Some(after[i].kind) != ForbiddenKind(mode) {
      PlannedOldOrFresh(q, local, remote, mode, now, i);
    }
  }

  lemma StepObeysMode(q: Queue, e: Event, mode: FolderMode)
    requires ObeysMode(q, mode) && KeepsMode(e, mode)
    ensures ObeysMode(Apply(q, e), mode)
  {
    hide Planning.Plan, Kept, PlanRows;
    match e
    case Planned(local, remote, _, now) => PlannedObeysMode(q, local, remote, mode, now);
    case _ =>
  }

  lemma RowIsPendingOrBlocked(e: SyncPlanEntry, peer: DeviceId, id: OperationId, now: nat)
    requires e.action != InSync
    ensures ReplacedBy(RowFor(e, peer, id, now), peer)
  {
  }

  /** Enqueueing replaces the peer's pending and blocked rows by exactly the rows
      of the plan, and touches no other row; a size beyond 64 bits stores nothing. */
  lemma EnqueueExact(t: Tables, plan: SyncPlan, now: nat)
    ensures Enqueue(t, plan, now).Ok? <==> Storable(plan.entries)
    ensures Enqueue(t, plan, now).Ok? ==>
      var rows, after := PlanRows(plan, t.nextId, now), Enqueue(t, plan, now).value;
      && after.(operations := t.operations, nextId := t.nextId) == t
      && (forall op :: ReplacedBy(op, plan.remoteDevice) ==> (op in after.operations <==> op in rows))
      && (forall op :: !ReplacedBy(op, plan.remoteDevice) ==> (op in after.operations <==> op in t.operations))
      && multiset(after.operations) == multiset(Kept(t.operations, plan.remoteDevice)) + multiset(rows)
  {
    KeptFacts(t.operations, plan.remoteDevice);
    var rows, a := PlanRows(plan, t.nextId, now), Actionable(plan.entries, |plan.entries|);
    ActionableFacts(plan.entries, |plan.entries|);
    forall i | 0 <= i < |rows| ensures ReplacedBy(rows[i], plan.remoteDevice) {
      assert a[i] in a;
      RowIsPendingOrBlocked(a[i], plan.remoteDevice, t.nextId + i, now);
    }
  }

  /** A plan's rows are the images of its entries that are not in sync, in path
      order, so there is one per path. */
  lemma PlanRowsMirrorEntries(local: Manifest, remote: Manifest, mode: FolderMode, id: OperationId, now: nat)
    ensures var plan := Planning.Plan(local, remote, mode);
      var rows, a := PlanRows(plan, id, now), Actionable(plan.entries, |plan.entries|);
      && |rows| == |a|
      && (forall e :: e in a <==> e in plan.entries && e.action != InSync)
      && (forall i :: 0 <= i < |a| ==> a[i].action != InSync && rows[i] == RowFor(a[i], remote.device, id + i, now))
      && Planning.InPathOrder(a)
  {
    hide Planning.Plan, Planning.EntryFor, Ordering.LexLess;
    Planning.PlanNamesPeers(local, remote, mode);
    var entries := Planning.Plan(local, remote, mode).entries;
    ActionableFacts(entries, |entries|);
    assert entries[..|entries|] == entries;
    Planning.PlanIncreases(local, remote, mode);
    ActionableKeepsOrder(entries, |entries|);
  }

  lemma {:induction false} ActionableKeepsOrder(entries: seq<SyncPlanEntry>, n: nat)
    requires n <= |entries| && Planning.InPathOrder(entries)
    ensures Planning.InPathOrder(Actionable(entries, n))
  {
    hide Ordering.LexLess;
    if n != 0 {
      ActionableKeepsOrder(entries, n - 1);
      ActionableFacts(entries, n - 1);
      var a := Actionable(entries, n - 1);
      forall i | 0 <= i < |a| ensures Ordering.LexLess(a[i].path, entries[n - 1].path) {
        assert a[i] in a;
        var k :| 0 <= k < n - 1 && entries[k] == a[i];
      }
    }
  }

  /** A resolved or retried operation does not outlive the next plan for its peer. */
  lemma ConsentEndsWithTheNextPlan(q: Queue, local: Manifest, remote: Manifest, mode: FolderMode, now: nat, i: nat)
    requires i < |Apply(q, Planned(local, remote, mode, now)).operations|
    ensures var row := Apply(q, Planned(local, remote, mode, now)).operations[i];
      ReplacedBy(row, remote.device) ==> !row.Consented() && row.retryCount == 0
  {
    hide Planning.Plan, Lawful;
    Planning.PlanNamesPeers(local, remote, mode);
    KeptFacts(q.operations, remote.device);
    PlannedRowsAreFresh(local, remote, mode, q.nextId, now);
  }

  ghost predicate NobodyConsented(q: Queue) {
    forall i :: 0 <= i < |q.operations| ==> !q.operations[i].Consented()
  }

  lemma PlannedKeepsNobodyConsented(q: Queue, local: Manifest, remote: Manifest, mode: FolderMode, now: nat)
    requires NobodyConsented(q)
    ensures NobodyConsented(Apply(q, Planned(local, remote, mode, now)))
  {
    hide Apply, Lawful;
    var after := Apply(q, Planned(local, remote, mode, now)).operations;
    forall i | 0 <= i < |after| ensures !after[i].Consented() {
      PlannedOldOrFresh(q, local, remote, mode, now, i);
    }
  }

  /** Consent enters a queue through a resolution only. */
  lemma StepKeepsNobodyConsented(q: Queue, e: Event)
    requires NobodyConsented(q) && !e.ResolvedOne?
    ensures NobodyConsented(Apply(q, e))
  {
    hide Planning.Plan, Kept, PlanRows;
    match e
    case Planned(local, remote, mode, now) => PlannedKeepsNobodyConsented(q, local, remote, mode, now);
    case _ =>
  }

  lemma {:induction false} RunKeepsNobodyConsented(q: Queue, events: seq<Event>, n: nat)
    requires n <= |events| && NobodyConsented(q)
    requires forall i :: 0 <= i < n ==> !events[i].ResolvedOne?
    ensures NobodyConsented(Run(q, events, n))
  {
    hide Apply, NobodyConsented;
    if n != 0 {
      RunKeepsNobodyConsented(q, events, n - 1);
      StepKeepsNobodyConsented(Run(q, events, n - 1), events[n - 1]);
    }
  }

  /** The operations that carry the user's consent. */
  function ConsentedIds(q: Queue): set<OperationId> {
    set op | op in q.operations && op.Consented() :: op.id
  }

  /** The operations that the first `n` events resolved. */
  function ResolvedIds(events: seq<Event>, n: nat): set<OperationId>
    requires n <= |events|
  {
    set k | 0 <= k < n && events[k].ResolvedOne? :: events[k].id
  }

  lemma StepConsents(q: Queue, e: Event, i: nat)
    requires i < |Apply(q, e).operations| && Apply(q, e).operations[i].Consented()
    ensures Apply(q, e).operations[i].id in ConsentedIds(q) || (e.ResolvedOne? && Apply(q, e).operations[i].id == e.id)
  {
    hide Planning.Plan, Kept, PlanRows;
    match e
    case Planned(local, remote, mode, now) => PlannedOldOrFresh(q, local, remote, mode, now, i);
    case _ =>
      assert i < |q.operations| && q.operations[i] in q.operations;
  }

  /** Every row that carries consent in a reachable queue was resolved earlier in the run. */
  lemma {:induction false} ConsentWasGiven(q: Queue, events: seq<Event>, n: nat)
    requires n <= |events|
    ensures ConsentedIds(Run(q, events, n)) <= ConsentedIds(q) + ResolvedIds(events, n)
  {
    hide Apply;
    if n != 0 {
      ConsentWasGiven(q, events, n - 1);
      var before, e := Run(q, events, n - 1), events[n - 1];
      forall op | op in Apply(before, e).operations && op.Consented()
        ensures op.id in ConsentedIds(q) + ResolvedIds(events, n)
      {
        var i :| 0 <= i < |Apply(before, e).operations| && Apply(before, e).operations[i] == op;
        StepConsents(before, e, i);
      }
    }
  }

  /** Folder mode over runs: a one-way folder whose queue starts without transfers
      of the other kind, and with no resolution, never queues one. */
  lemma {:induction false} RunObeysMode(q: Queue, events: seq<Event>, n: nat, mode: FolderMode)
    requires n <= |events| && ObeysMode(q, mode)
    requires forall i :: 0 <= i < n ==> KeepsMode(events[i], mode)
    ensures ObeysMode(Run(q, events, n), mode)
  {
    hide Apply, ObeysMode, KeepsMode;
    if n != 0 {
      RunObeysMode(q, events, n - 1, mode);
      StepObeysMode(Run(q, events, n - 1), events[n - 1], mode);
    }
  }

  /** A mode-blocked operation never becomes a transfer: as long as its row
      exists it stays blocked by the mode. */
  lemma {:induction false} ModeBlockedStays(q: Queue, events: seq<Event>, m: nat, n: nat, i: nat, j: nat)
    requires m <= n <= |events| && Inv(q) && Legal(q, events, n)
    requires i < |Run(q, events, m).operations| && j < |Run(q, events, n).operations|
    requires Run(q, events, m).operations[i].id == Run(q, events, n).operations[j].id
    ensures Run(q, events, m).operations[i].kind == BlockedByMode <==> Run(q, events, n).operations[j].kind == BlockedByMode
    decreases n
  {
    hide Apply, Inv, Enabled, Continues;
    RunIsLegalUpTo(q, events, m, n);
    RunKeepsInv(q, events, m);
    InvHasFreshIds(Run(q, events, m));
    if m == n {
      FindsTheRow(Run(q, events, m), i);
      FindsTheRow(Run(q, events, m), j);
    } else {
      var before := Run(q, events, n - 1);
      RunKeepsInv(q, events, n - 1);
      StepContinues(before, events[n - 1], j);
      IdsGrow(q, events, m, n - 1);
      var row := Run(q, events, n).operations[j];
      var k :| 0 <= k < |before.operations| && Continues(before.operations[k], row);
      ContinuesFacts(before.operations[k], row);
      ModeBlockedStays(q, events, m, n - 1, i, k);
    }
  }

  lemma {:induction false} RunIsLegalUpTo(q: Queue, events: seq<Event>, m: nat, n: nat)
    requires m <= n <= |events| && Legal(q, events, n)
    ensures Legal(q, events, m)
  {
    hide Enabled, Run, Apply;
    if m != n {
      RunIsLegalUpTo(q, events, m, n - 1);
    }
  }

  lemma {:induction false} IdsGrow(q: Queue, events: seq<Event>, m: nat, n: nat)
    requires m <= n <= |events|
    ensures Run(q, events, m).nextId <= Run(q, events, n).nextId
  {
    hide Apply;
    if m != n {
      IdsGrow(q, events, m, n - 1);
      IdsOnlyGrow(Run(q, events, n - 1), events[n - 1]);
    }
  }
}
