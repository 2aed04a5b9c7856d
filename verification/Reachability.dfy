/** What holds of the world whenever the engine is at rest or at work, and what a plan,
    a queue run and a round in one piece make of it. */
module Reachability {
  import opened Domain
  import opened StateTables
  import opened Devices
  import opened PeerServer
  import opened SyncEngine
  import opened QueueListing
  import opened Runs
  import QueueMachine

  ghost predicate WorldInv(w: World) {
    && Sound(w.local) && Sound(w.peer)
    && QueueMachine.Inv(QueueOf(w.local)) && QueueMachine.Inv(QueueOf(w.peer))
  }

  predicate EventsKeepMode(events: seq<QueueMachine.Event>, mode: FolderMode) {
    forall i :: 0 <= i < |events| ==> QueueMachine.KeepsMode(events[i], mode)
  }

  /** What every action keeps, and the queue events it amounts to. */
  ghost predicate ActionFacts(w: World, after: World, events: seq<QueueMachine.Event>) {
    && Sound(after.local) && Sound(after.peer)
    && SameSettings(after.local, w.local) && SameSettings(after.peer, w.peer)
    && QueueOf(after.peer) == QueueOf(w.peer)
    && IsQueueRun(QueueOf(w.local), QueueOf(after.local), events)
  }

  lemma AgreesIsSound(d: Device)
    requires Agrees(d)
    ensures Sound(d)
  {
  }

  lemma ScanIsSound(d: Device)
    requires Sound(d)
    ensures Sound(Scan(d)) && QueueOf(Scan(d)) == QueueOf(d) && SameSettings(Scan(d), d)
  {
    ScanAgrees(d);
  }

  lemma OneEvent(q: QueueMachine.Queue, e: QueueMachine.Event)
    requires QueueMachine.Enabled(q, e)
    ensures IsQueueRun(q, QueueMachine.Apply(q, e), [e])
  {
    NoEvents(q);
    OneMoreEvent(q, q, [], e);
    assert [] + [e] == [e];
  }

  lemma PlanningFacts(w: World, now: nat) returns (events: seq<QueueMachine.Event>)
    requires WorldInv(w)
    ensures ActionFacts(w, EnqueuePlan(w, now).world, events) && EventsKeepMode(events, w.local.mode)
  {
    hide Sound, Scan, QueueMachine.Inv, IsQueueRun, PlanRows, Kept, Storable;
    ScanIsSound(w.local);
    ScanIsSound(w.peer);
    var s := ScanBoth(w);
    if Enqueue(s.local.tables, PlanFor(s), now).Ok? {
      var e := QueueMachine.Planned(ManifestOf(s.local), ManifestOf(s.peer), w.local.mode, now);
      OneEvent(QueueOf(w.local), e);
      OnlyOperationsChange(s.local, Enqueue(s.local.tables, PlanFor(s), now).value);
      events := [e];
    } else {
      NoEvents(QueueOf(w.local));
      events := [];
    }
  }

  lemma OnlyOperationsChange(d: Device, t: Tables)
    requires t.files == d.tables.files
    ensures Sound(d.(tables := t)) == Sound(d)
  {
  }

  lemma WaitingAtFirst(w: World, limit: nat)
    requires QueueMachine.Inv(QueueOf(w.local))
    ensures Waiting(QueueOf(w.local), RunList(w, limit), 0)
  {
    hide RunList, QueueMachine.Lawful;
    RunListIsLawful(w, limit);
    var q, ops := QueueOf(w.local), RunList(w, limit);
    forall k, i | 0 <= k < |ops| && 0 <= i < |q.operations| && q.operations[i].id == ops[k].id
      ensures q.operations[i].IsTransfer() && q.operations[i].status == Pending
    {
      assert ops[k] in ops;
      var j :| 0 <= j < |q.operations| && q.operations[j] == ops[k];
    }
  }

  lemma QueueRunFacts(w: World, channel: Channel, limit: U64) returns (events: seq<QueueMachine.Event>)
    requires WorldInv(w) && channel.aead.Correct()
    ensures ActionFacts(w, RunSyncQueue(w, channel, limit).world, events) && EventsKeepMode(events, w.local.mode)
  {
    hide Sound, Scan, QueueMachine.Inv, IsQueueRun, RunList, ExecuteFirst, Waiting, Agrees, DistinctIds,
      LawfulTransfers, LostOnlyByConsent, ExecutionOf;
    ScanIsSound(w.local);
    ScanIsSound(w.peer);
    var s := ScanBoth(w);
    if limit > I64_MAX {
      NoEvents(QueueOf(w.local));
      return [];
    }
    ScanAgrees(w.local);
    ScanAgrees(w.peer);
    var ops := RunList(s, limit);
    RunListIsLawful(s, limit);
    WaitingAtFirst(s, limit);
    events := BatchIsQueueRun(s, channel, ManifestOf(s.peer), ops, |ops|);
    ExecutionKeepsMode(events, ops, |ops|, w.local.mode);
    BatchGuarantees(s, channel, ManifestOf(s.peer), ops, |ops|);
    var r := RunSyncQueue(w, channel, limit).world;
    AgreesIsSound(r.local);
    AgreesIsSound(r.peer);
  }

  lemma SyncOnceFacts(w: World, channel: Channel, limit: U64, now: nat) returns (events: seq<QueueMachine.Event>)
    requires WorldInv(w) && channel.aead.Correct()
    ensures ActionFacts(w, RunSyncOnce(w, channel, limit, now).world, events) && EventsKeepMode(events, w.local.mode)
  {
    var planned := PlanningFacts(w, now);
    var queued := EnqueuePlan(w, now);
    if queued.result.Err? {
      return planned;
    }
    assert WorldInv(queued.world) by {
      QueueMachine.RunKeepsInv(QueueOf(w.local), planned, |planned|);
    }
    var executed := QueueRunFacts(queued.world, channel, limit);
    hide Sound, EnqueuePlan, RunSyncQueue, QueueMachine.Inv, IsQueueRun;
    QueueRunsCompose(QueueOf(w.local), QueueOf(queued.world.local),
                     QueueOf(RunSyncQueue(queued.world, channel, limit).world.local), planned, executed);
    events := planned + executed;
  }

  /** A plan, and a plan with the run after it, keep the invariant of the world. */
  lemma PlanKeepsInv(w: World, now: nat)
    requires WorldInv(w)
    ensures var v := EnqueuePlan(w, now).world;
      && WorldInv(v) && QueueMachine.Inv(QueueOf(v.local))
      && SameSettings(v.local, w.local) && SameSettings(v.peer, w.peer)
  {
    hide EnqueuePlan, Sound, QueueMachine.Inv;
    var events := PlanningFacts(w, now);
    QueueMachine.RunKeepsInv(QueueOf(w.local), events, |events|);
  }

  lemma RoundKeepsInv(w: World, channel: Channel, limit: U64, now: nat)
    requires WorldInv(w) && channel.aead.Correct()
    ensures var v := RunSyncOnce(w, channel, limit, now).world;
      WorldInv(v) && SameSettings(v.local, w.local) && SameSettings(v.peer, w.peer)
  {
    hide RunSyncOnce, Sound, QueueMachine.Inv;
    var events := SyncOnceFacts(w, channel, limit, now);
    QueueMachine.RunKeepsInv(QueueOf(w.local), events, |events|);
  }
}
