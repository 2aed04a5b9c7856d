/** A queue run in one piece: what its operations together keep and lose, and the queue
    events they amount to (crates/syncer-agent/src/main.rs:765-861). */
module Runs {
  import opened Wrappers
  import opened Domain
  import opened Devices
  import opened PeerServer
  import opened SyncEngine
  import opened Transfers
  import opened Safety
  import opened QueueListing
  import QueueMachine

  // ------------------------------------------------------------------
  // One queue run
  // ------------------------------------------------------------------

  /** The user agreed that this operation replaces or removes exactly this file. */
  predicate Agreed(op: Operation, path: Path, content: Content) {
    op.Consented() && op.path == path && Matches(TargetHash(op), TargetSize(op), content)
  }

  ghost predicate AgreedByOne(ops: seq<Operation>, kind: OperationKind, path: Path, content: Content) {
    exists i :: 0 <= i < |ops| && ops[i].kind == kind && Agreed(ops[i], path, content)
  }

  /** Every file is still there, or one of the operations of this kind was agreed to
      replace it: downloads write the executing device, uploads its peer. */
  ghost predicate LostOnlyByConsent(before: map<Path, Content>, after: map<Path, Content>, ops: seq<Operation>, kind: OperationKind) {
    forall p :: p in before ==>
      (p in after && after[p] == before[p]) || AgreedByOne(ops, kind, p, before[p])
  }

  ghost predicate Grows(before: map<Path, Content>, after: map<Path, Content>) {
    forall p :: p in before ==> p in after && after[p] == before[p]
  }

  ghost predicate LawfulTransfers(ops: seq<Operation>) {
    forall i :: 0 <= i < |ops| ==> ops[i].IsTransfer() && QueueMachine.Lawful(ops[i])
  }

  /** A device that receives an operation loses a file only by agreement. */
  lemma ReceivingLosesOnlyByConsent(before: Device, after: Device, op: Operation, sent: map<Path, Content>,
                                    arrived: bool, mayClear: bool, p: Path)
    requires op.IsTransfer() && QueueMachine.Lawful(op) && p in before.disk
    requires Receives(before, after, op.path, TargetHash(op), TargetSize(op), sent, arrived, mayClear)
    ensures (p in after.disk && after.disk[p] == before.disk[p]) || Agreed(op, p, before.disk[p])
  {
  }

  lemma ExecuteLosesOnlyByConsent(w: World, channel: Channel, manifest: Manifest, op: Operation)
    requires InStep(w) && channel.aead.Correct() && op.IsTransfer() && QueueMachine.Lawful(op)
    ensures var o := ExecuteOne(w, channel, manifest, op).world;
      LostOnlyByConsent(w.local.disk, o.local.disk, [op], Download) && LostOnlyByConsent(w.peer.disk, o.peer.disk, [op], Upload)
  {
    hide ExecuteOne, InStep, Receives;
    ExecuteEffect(w, channel, manifest, op);
    var o := ExecuteOne(w, channel, manifest, op);
    forall p | p in Target(w, op).disk
      ensures (p in Target(o.world, op).disk && Target(o.world, op).disk[p] == Target(w, op).disk[p])
           || AgreedByOne([op], op.kind, p, Target(w, op).disk[p])
    {
      assert [op][0] == op;
      ReceivingLosesOnlyByConsent(Target(w, op), Target(o.world, op), op, Source(w, op).disk, o.result.Ok?,
                                  op.kind != Download, p);
    }
  }

  lemma LossesCompose(a: map<Path, Content>, b: map<Path, Content>, c: map<Path, Content>, ops: seq<Operation>, n: nat,
                      kind: OperationKind)
    requires n < |ops| && LostOnlyByConsent(a, b, ops[..n], kind) && LostOnlyByConsent(b, c, [ops[n]], kind)
    ensures LostOnlyByConsent(a, c, ops[..n + 1], kind)
  {
    forall p | p in a
      ensures (p in c && c[p] == a[p]) || AgreedByOne(ops[..n + 1], kind, p, a[p])
    {
      if p in b && b[p] == a[p] {
        if AgreedByOne([ops[n]], kind, p, b[p]) {
          assert Agreed(ops[..n + 1][n], p, a[p]);
        }
      } else {
        var i :| 0 <= i < n && ops[..n][i].kind == kind && Agreed(ops[..n][i], p, a[p]);
        assert Agreed(ops[..n + 1][i], p, a[p]);
      }
    }
  }

  lemma {:induction false} BatchGuarantees(w: World, channel: Channel, manifest: Manifest, ops: seq<Operation>, n: nat)
    requires n <= |ops| && InStep(w) && channel.aead.Correct() && LawfulTransfers(ops)
    ensures var b := ExecuteFirst(w, channel, manifest, ops, n).world;
      && InStep(b)
      && WithinLimit(w.local, b.local) && WithinLimit(w.peer, b.peer)
      && LostOnlyByConsent(w.local.disk, b.local.disk, ops[..n], Download)
      && LostOnlyByConsent(w.peer.disk, b.peer.disk, ops[..n], Upload)
  {
    hide ExecuteOne, InStep, LostOnlyByConsent;
    if n == 0 {
      NothingHappened(w.local.disk, ops[..0], Download);
      NothingHappened(w.peer.disk, ops[..0], Upload);
    } else {
      var b := ExecuteFirst(w, channel, manifest, ops, n - 1).world;
      BatchGuarantees(w, channel, manifest, ops, n - 1);
      var c := ExecuteOne(b, channel, manifest, ops[n - 1]).world;
      ExecuteEffect(b, channel, manifest, ops[n - 1]);
      ExecuteLosesOnlyByConsent(b, channel, manifest, ops[n - 1]);
      LossesCompose(w.local.disk, b.local.disk, c.local.disk, ops, n - 1, Download);
      LossesCompose(w.peer.disk, b.peer.disk, c.peer.disk, ops, n - 1, Upload);
    }
  }

  lemma NothingHappened(disk: map<Path, Content>, ops: seq<Operation>, kind: OperationKind)
    ensures LostOnlyByConsent(disk, disk, ops, kind)
  {
  }

  function QueueOf(d: Device): QueueMachine.Queue {
    QueueMachine.Queue(d.tables.operations, d.tables.nextId)
  }

  lemma RunListIsLawful(w: World, limit: nat)
    requires QueueMachine.Inv(QueueOf(w.local))
    ensures LawfulTransfers(RunList(w, limit)) && DistinctIds(RunList(w, limit))
    ensures forall op :: op in RunList(w, limit) ==> op in w.Operations() && op.IsTransfer() && op.status == Pending
  {
    hide RunList, QueueMachine.Lawful;
    RunListFacts(w, limit);
    var ops := RunList(w, limit);
    forall i | 0 <= i < |ops| ensures ops[i].IsTransfer() && QueueMachine.Lawful(ops[i]) {
      assert ops[i] in ops;
      var k :| 0 <= k < |w.Operations()| && w.Operations()[k] == ops[i];
      assert QueueMachine.Lawful(w.Operations()[k]);
    }
  }

  /** Over a whole queue run, whatever the indexes held before: afterwards they
      agree with the disks; every file of either device that is gone or changed
      was named, by its hash and size, by an operation of the run that the user
      resolved; and the limits hold as far as they held after the scan. */
  lemma QueueRunGuarantees(w: World, channel: Channel, limit: U64)
    requires Sound(w.local) && Sound(w.peer) && QueueMachine.Inv(QueueOf(w.local))
    requires channel.aead.Correct()
    ensures var r := RunSyncQueue(w, channel, limit).world;
      && InStep(r)
      && WithinLimit(Scan(w.local), r.local) && WithinLimit(Scan(w.peer), r.peer)
      && LostOnlyByConsent(w.local.disk, r.local.disk, RunList(ScanBoth(w), limit), Download)
      && LostOnlyByConsent(w.peer.disk, r.peer.disk, RunList(ScanBoth(w), limit), Upload)
  {
    hide ExecuteFirst, RunList, LostOnlyByConsent, QueueMachine.Inv, Scan, Agrees, Sound, LawfulTransfers;
    ScanAgrees(w.local);
    ScanAgrees(w.peer);
    ScanChangesTheIndexOnly(w.local);
    ScanChangesTheIndexOnly(w.peer);
    var s, ops := ScanBoth(w), RunList(ScanBoth(w), limit);
    assert QueueOf(s.local) == QueueOf(w.local);
    RunListIsLawful(s, limit);
    BatchGuarantees(s, channel, ManifestOf(s.peer), ops, |ops|);
    assert ops[..|ops|] == ops;
    NothingHappened(w.local.disk, ops, Download);
    NothingHappened(w.peer.disk, ops, Upload);
  }

  // ------------------------------------------------------------------
  // The queue of an acting device
  // ------------------------------------------------------------------

  ghost predicate IsQueueRun(before: QueueMachine.Queue, after: QueueMachine.Queue, events: seq<QueueMachine.Event>) {
    QueueMachine.Legal(before, events, |events|) && QueueMachine.Run(before, events, |events|) == after
  }

  lemma NoEvents(q: QueueMachine.Queue)
    ensures IsQueueRun(q, q, [])
  {
  }

  lemma {:induction false} RunOfPrefix(q: QueueMachine.Queue, a: seq<QueueMachine.Event>, b: seq<QueueMachine.Event>, n: nat)
    requires n <= |a|
    ensures QueueMachine.Run(q, a + b, n) == QueueMachine.Run(q, a, n)
    ensures QueueMachine.Legal(q, a + b, n) == QueueMachine.Legal(q, a, n)
  {
    hide QueueMachine.Apply, QueueMachine.Enabled;
    if n != 0 {
      RunOfPrefix(q, a, b, n - 1);
    }
  }

  lemma OneMoreEvent(q: QueueMachine.Queue, r: QueueMachine.Queue, events: seq<QueueMachine.Event>, e: QueueMachine.Event)
    requires IsQueueRun(q, r, events) && QueueMachine.Enabled(r, e)
    ensures IsQueueRun(q, QueueMachine.Apply(r, e), events + [e])
  {
    hide QueueMachine.Apply, QueueMachine.Enabled;
    RunOfPrefix(q, events, [e], |events|);
  }

  lemma {:induction false} QueueRunsCompose(
    p: QueueMachine.Queue, q: QueueMachine.Queue, r: QueueMachine.Queue,
    a: seq<QueueMachine.Event>, b: seq<QueueMachine.Event>)
    requires IsQueueRun(p, q, a) && IsQueueRun(q, r, b)
    ensures IsQueueRun(p, r, a + b)
    decreases |b|
  {
    hide QueueMachine.Apply, QueueMachine.Enabled;
    if b == [] {
      assert a + b == a;
    } else {
      var n := |b| - 1;
      var c, e := b[..n], b[n];
      assert b == c + [e];
      RunOfPrefix(q, c, [e], n);
      var m := QueueMachine.Run(q, c, n);
      QueueRunsCompose(p, q, m, a, c);
      OneMoreEvent(p, m, a + c, e);
      assert a + c + [e] == a + b;
    }
  }

  /** The rows of the listed operations from `n` on are pending transfers. */
  ghost predicate Waiting(q: QueueMachine.Queue, ops: seq<Operation>, n: nat) {
    forall k, i :: n <= k < |ops| && 0 <= i < |q.operations| && q.operations[i].id == ops[k].id ==>
      q.operations[i].IsTransfer() && q.operations[i].status == Pending
  }

  lemma MarkingLeavesOthersWaiting(q: QueueMachine.Queue, ops: seq<Operation>, n: nat, error: Option<TransferError>)
    requires n < |ops| && DistinctIds(ops) && Waiting(q, ops, n)
    ensures var started := QueueMachine.Apply(q, QueueMachine.StartedOne(ops[n].id));
      && QueueMachine.Enabled(started, QueueMachine.Marked(ops[n].id, error))
      && Waiting(QueueMachine.Apply(started, QueueMachine.Marked(ops[n].id, error)), ops, n + 1)
  {
  }

  /** The events a batch makes: for each operation in turn one start and one mark. */
  ghost predicate ExecutionOf(events: seq<QueueMachine.Event>, ops: seq<Operation>, n: nat)
    requires n <= |ops|
  {
    && |events| == 2 * n
    && forall k :: 0 <= k < n ==>
         events[2 * k] == QueueMachine.StartedOne(ops[k].id) && events[2 * k + 1].Marked? && events[2 * k + 1].id == ops[k].id
  }

  lemma NoExecution(ops: seq<Operation>)
    ensures ExecutionOf([], ops, 0)
  {
  }

  lemma ExecutionStep(events: seq<QueueMachine.Event>, ops: seq<Operation>, n: nat, mark: QueueMachine.Event)
    requires n < |ops| && ExecutionOf(events, ops, n) && mark.Marked? && mark.id == ops[n].id
    ensures ExecutionOf(events + [QueueMachine.StartedOne(ops[n].id)] + [mark], ops, n + 1)
  {
  }

  lemma ExecutionKeepsMode(events: seq<QueueMachine.Event>, ops: seq<Operation>, n: nat, mode: FolderMode)
    requires n <= |ops| && ExecutionOf(events, ops, n)
    ensures forall i :: 0 <= i < |events| ==> QueueMachine.KeepsMode(events[i], mode)
  {
    forall i | 0 <= i < |events| ensures events[i].StartedOne? || events[i].Marked? {
      assert events[2 * (i / 2)].StartedOne? && events[2 * (i / 2) + 1].Marked?;
    }
  }

  lemma {:induction false} BatchIsQueueRun(w: World, channel: Channel, manifest: Manifest, ops: seq<Operation>, n: nat)
    returns (events: seq<QueueMachine.Event>)
    requires n <= |ops| && InStep(w) && channel.aead.Correct() && LawfulTransfers(ops)
    requires DistinctIds(ops) && Waiting(QueueOf(w.local), ops, 0)
    ensures var b := ExecuteFirst(w, channel, manifest, ops, n).world;
      && IsQueueRun(QueueOf(w.local), QueueOf(b.local), events)
      && QueueOf(b.peer) == QueueOf(w.peer)
      && Waiting(QueueOf(b.local), ops, n)
    ensures ExecutionOf(events, ops, n)
  {
    hide ExecuteOne, InStep, Waiting, IsQueueRun, LawfulTransfers, QueueMachine.Enabled, ExecutionOf;
    if n == 0 {
      events := [];
      NoEvents(QueueOf(w.local));
      NoExecution(ops);
    } else {
      var earlier := BatchIsQueueRun(w, channel, manifest, ops, n - 1);
      BatchGuarantees(w, channel, manifest, ops, n - 1);
      var b := ExecuteFirst(w, channel, manifest, ops, n - 1).world;
      var o := ExecuteOne(b, channel, manifest, ops[n - 1]);
      ExecuteMarks(b, channel, manifest, ops[n - 1]);
      var error := if o.result.Ok? then None else Some(o.result.error);
      var start, mark := QueueMachine.StartedOne(ops[n - 1].id), QueueMachine.Marked(ops[n - 1].id, error);
      MarkingLeavesOthersWaiting(QueueOf(b.local), ops, n - 1, error);
      StartIsEnabled(QueueOf(b.local), ops[n - 1].id);
      OneMoreEvent(QueueOf(w.local), QueueOf(b.local), earlier, start);
      OneMoreEvent(QueueOf(w.local), QueueMachine.Apply(QueueOf(b.local), start), earlier + [start], mark);
      events := earlier + [start] + [mark];
      ExecutionStep(earlier, ops, n - 1, mark);
    }
  }

  lemma StartIsEnabled(q: QueueMachine.Queue, id: OperationId)
    ensures QueueMachine.Enabled(q, QueueMachine.StartedOne(id))
  {
  }
}
