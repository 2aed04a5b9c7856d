/** What any sequence of moves can lose: each lost file was named by an operation that
    the user of the executing device had resolved before, so that without resolutions
    nothing is lost at all (crates/syncer-core/src/state_db.rs:554-606;
    crates/syncer-agent/src/main.rs:742-1068). */
module Consents {
  import opened Domain
  import opened StateTables
  import opened Devices
  import opened PeerServer
  import opened SyncEngine
  import opened Runs
  import opened Reachability
  import opened Effects
  import opened Interleaving
  import opened Jobs
  import opened Deletions
  import opened Invariants
  import QueueMachine

  // ------------------------------------------------------------------
  // Where consent comes from
  // ------------------------------------------------------------------

  /** Before move `t` the user of that device resolved the operation. */
  ghost predicate WasResolved(moves: seq<Move>, t: nat, byLocal: bool, id: OperationId)
    requires t <= |moves|
  {
    exists j :: 0 <= j < t && IsResolution(moves[j]) && moves[j].byLocal == byLocal && moves[j].command.id == id
  }

  /** Every consented operation that a job still has to execute was resolved. */
  ghost predicate JobExplained(stage: Stage, moves: seq<Move>, n: nat, byLocal: bool)
    requires n <= |moves|
  {
    stage.Running? ==>
      forall i :: 0 <= i < |stage.todo| && stage.todo[i].Consented() ==> WasResolved(moves, n, byLocal, stage.todo[i].id)
  }

  ghost predicate QueueExplained(q: QueueMachine.Queue, moves: seq<Move>, n: nat, byLocal: bool)
    requires n <= |moves|
  {
    forall id :: id in QueueMachine.ConsentedIds(q) ==> WasResolved(moves, n, byLocal, id)
  }

  /** Every consented operation, in a queue or a job, was resolved by the user of its device. */
  ghost predicate ConsentsExplained(s: System, moves: seq<Move>, n: nat)
    requires n <= |moves|
  {
    && QueueExplained(QueueOf(s.world.local), moves, n, true)
    && QueueExplained(QueueOf(s.world.peer), moves, n, false)
    && forall j :: 0 <= j < |s.jobs| ==> JobExplained(s.jobs[j].stage, moves, n, s.jobs[j].byLocal)
  }

  lemma LaterStillResolved(moves: seq<Move>, n: nat, byLocal: bool, id: OperationId)
    requires n < |moves| && WasResolved(moves, n, byLocal, id)
    ensures WasResolved(moves, n + 1, byLocal, id)
  {
  }

  lemma QueueStaysExplained(s: System, channel: Channel, moves: seq<Move>, n: nat, byLocal: bool)
    requires n < |moves| && Inv(s) && channel.aead.Correct() && QueueExplained(QueueOf(Side(s.world, byLocal)), moves, n, byLocal)
    ensures QueueExplained(QueueOf(Side(Make(s, channel, moves[n]).world, byLocal)), moves, n + 1, byLocal)
  {
    hide Make, Inv, WasResolved, QueueMachine.ConsentedIds, QueueMachine.Run, QueueMachine.Legal;
    var q, r := QueueOf(Side(s.world, byLocal)), QueueOf(Side(Make(s, channel, moves[n]).world, byLocal));
    var events := MoveEvents(s, channel, moves[n], byLocal);
    QueueMachine.ConsentWasGiven(q, events, |events|);
    forall id | id in QueueMachine.ConsentedIds(r) ensures WasResolved(moves, n + 1, byLocal, id) {
      if id in QueueMachine.ConsentedIds(q) {
        LaterStillResolved(moves, n, byLocal, id);
      } else {
        JustResolved(moves, n, byLocal, events, id);
      }
    }
  }

  lemma JustResolved(moves: seq<Move>, n: nat, byLocal: bool, events: seq<QueueMachine.Event>, id: OperationId)
    requires n < |moves| && id in QueueMachine.ResolvedIds(events, |events|)
    requires if IsResolution(moves[n]) && moves[n].byLocal == byLocal
             then events == [QueueMachine.ResolvedOne(moves[n].command.id, moves[n].command.resolution)]
             else exists mode :: EventsKeepMode(events, mode)
    ensures WasResolved(moves, n + 1, byLocal, id)
  {
    var k :| 0 <= k < |events| && events[k].ResolvedOne? && events[k].id == id;
    assert IsResolution(moves[n]) && moves[n].byLocal == byLocal && moves[n].command.id == id;
  }

  lemma JobStaysExplained(stage: Stage, moves: seq<Move>, n: nat, byLocal: bool)
    requires n < |moves| && JobExplained(stage, moves, n, byLocal)
    ensures JobExplained(stage, moves, n + 1, byLocal)
  {
    hide WasResolved;
    if stage.Running? {
      forall i | 0 <= i < |stage.todo| && stage.todo[i].Consented() ensures WasResolved(moves, n + 1, byLocal, stage.todo[i].id) {
        LaterStillResolved(moves, n, byLocal, stage.todo[i].id);
      }
    }
  }

  /** The next stage of an explained job is explained: a listing takes its operations from
      the queue, and an execution takes one away. */
  lemma ProceedExplained(w: World, channel: Channel, stage: Stage, now: nat, limit: U64, moves: seq<Move>, n: nat, byLocal: bool)
    requires n <= |moves| && QueueMachine.Inv(QueueOf(w.local))
    requires JobExplained(stage, moves, n, byLocal) && QueueExplained(QueueOf(w.local), moves, n, byLocal)
    ensures JobExplained(Proceed(w, channel, stage, now, limit).stage, moves, n, byLocal)
  {
    hide WasResolved, ListFor, ExecuteOne, Scan, Enqueue, QueueMachine.Inv, InFlight;
    if stage.RunFetched? {
      ListedInFlight(QueueOf(w.local), stage.manifest.device, limit);
      var todo := ListFor(w.Operations(), stage.manifest.device, limit);
      forall i | 0 <= i < |todo| && todo[i].Consented() ensures WasResolved(moves, n, byLocal, todo[i].id) {
        assert todo[i] in todo;
        assert todo[i].id in QueueMachine.ConsentedIds(QueueOf(w.local));
      }
    }
  }

  lemma JobsStayExplained(s: System, channel: Channel, moves: seq<Move>, n: nat, j: nat)
    requires n < |moves| && Inv(s) && ConsentsExplained(s, moves, n) && j < |Make(s, channel, moves[n]).jobs|
    ensures var job := Make(s, channel, moves[n]).jobs[j]; JobExplained(job.stage, moves, n + 1, job.byLocal)
  {
    hide WasResolved, Perform, Scan, Proceed, QueueExplained, Sound, QueueMachine.Inv, JobInv;
    var m, job := moves[n], Make(s, channel, moves[n]).jobs[j];
    assert JobExplained(job.stage, moves, n, job.byLocal) by {
      if m.Advance? && m.job == j {
        ProceedExplained(Turn(s.world, job.byLocal), channel, s.jobs[j].stage, m.now, m.limit, moves, n, job.byLocal);
      }
    }
    JobStaysExplained(job.stage, moves, n, job.byLocal);
  }

  /** In every state that moves lead to from queues without resolved operations: what
      carries consent was resolved, earlier, by the user of that device. */
  lemma {:induction false} ConsentsOverRuns(s: System, channel: Channel, moves: seq<Move>, n: nat)
    requires n <= |moves| && Inv(s) && channel.aead.Correct() && s.jobs == []
    requires QueueMachine.NobodyConsented(QueueOf(s.world.local)) && QueueMachine.NobodyConsented(QueueOf(s.world.peer))
    ensures ConsentsExplained(Reach(s, channel, moves, n), moves, n)
  {
    hide Make, Inv, WasResolved, QueueExplained, JobExplained, QueueMachine.NobodyConsented;
    if n == 0 {
      NobodyIsExplained(QueueOf(s.world.local), moves, true);
      NobodyIsExplained(QueueOf(s.world.peer), moves, false);
    } else {
      ConsentsOverRuns(s, channel, moves, n - 1);
      ReachableInv(s, channel, moves, n - 1);
      var t := Reach(s, channel, moves, n - 1);
      QueueStaysExplained(t, channel, moves, n - 1, true);
      QueueStaysExplained(t, channel, moves, n - 1, false);
      var u := Make(t, channel, moves[n - 1]);
      forall j | 0 <= j < |u.jobs| ensures JobExplained(u.jobs[j].stage, moves, n, u.jobs[j].byLocal) {
        JobsStayExplained(t, channel, moves, n - 1, j);
      }
    }
  }

  lemma NobodyIsExplained(q: QueueMachine.Queue, moves: seq<Move>, byLocal: bool)
    requires QueueMachine.NobodyConsented(q)
    ensures QueueExplained(q, moves, 0, byLocal)
  {
  }

  // ------------------------------------------------------------------
  // What an index is right about
  // ------------------------------------------------------------------

  /** A job begins with a scan: while a device has one, its index is right about every
      path that is not edited and not deleted. */
  ghost predicate ScannedAt(s: System, byLocal: bool, p: Path) {
    forall j :: 0 <= j < |s.jobs| && s.jobs[j].byLocal == byLocal ==> AgreesAt(Side(s.world, byLocal), p)
  }

  /** No edit of the file on that device, and no deletion of it on either. */
  predicate SparesFile(m: Move, byLocal: bool, p: Path) {
    m.Do? ==>
      && (m.command.Edit? ==> m.byLocal != byLocal || m.command.name != p)
      && (m.command.Delete? ==> m.command.path != p)
  }

  lemma MoveKeepsScanned(s: System, channel: Channel, m: Move, byLocal: bool, p: Path)
    requires Inv(s) && channel.aead.Correct() && ScannedAt(s, byLocal, p) && SparesFile(m, byLocal, p)
    ensures ScannedAt(Make(s, channel, m), byLocal, p)
  {
    hide Inv, AgreesAt, Proceed, Perform, Scan, Sound, ReachesTheSameFile;
    InvIsSound(s);
    if ByLocal(s, m) == byLocal && (m.StartPlan? || m.StartRun?) {
      SoundHasNoSkippedRows(Side(s.world, byLocal));
      ScanAgreesAt(Side(s.world, byLocal), p);
    } else if AgreesAt(Side(s.world, byLocal), p) {
      MoveKeepsAgreement(s, channel, m, byLocal, p);
    }
  }

  lemma SoundHasNoSkippedRows(d: Device)
    requires Sound(d)
    ensures NoSkippedRows(d)
  {
  }

  lemma {:induction false} ScannedOverRuns(s: System, channel: Channel, moves: seq<Move>, n: nat, byLocal: bool, p: Path)
    requires n <= |moves| && Inv(s) && channel.aead.Correct() && s.jobs == []
    requires forall k :: 0 <= k < n ==> SparesFile(moves[k], byLocal, p)
    ensures ScannedAt(Reach(s, channel, moves, n), byLocal, p)
  {
    hide Make, Inv, AgreesAt, SparesFile;
    if n != 0 {
      ScannedOverRuns(s, channel, moves, n - 1, byLocal, p);
      ReachableInv(s, channel, moves, n - 1);
      MoveKeepsScanned(Reach(s, channel, moves, n - 1), channel, moves[n - 1], byLocal, p);
    }
  }

  // ------------------------------------------------------------------
  // What one move can lose
  // ------------------------------------------------------------------

  /** The move executes an operation that writes this device and was agreed to replace or
      remove exactly this file. */
  ghost predicate ExecutesAgreed(s: System, m: Move, byLocal: bool, p: Path, content: Content) {
    && m.Advance? && m.job < |s.jobs|
    && var job := s.jobs[m.job];
       && job.stage.Running? && job.stage.todo != []
       && job.stage.todo[0].kind == (if job.byLocal == byLocal then Download else Upload)
       && Agreed(job.stage.todo[0], p, content)
  }

  lemma ExecutionLosses(s: System, channel: Channel, m: Move, byLocal: bool, p: Path)
    requires Inv(s) && channel.aead.Correct() && ScannedAt(s, byLocal, p) && p in Side(s.world, byLocal).disk
    requires m.Advance? && m.job < |s.jobs| && s.jobs[m.job].stage.Running? && s.jobs[m.job].stage.todo != []
    ensures StaysAt(Side(s.world, byLocal), Side(Make(s, channel, m).world, byLocal), p)
         || ExecutesAgreed(s, m, byLocal, p, Side(s.world, byLocal).disk[p])
  {
    hide Inv, AgreesAt, ExecuteOne, Agreed, StaysAt, Effect, Booked, QueueMachine.Lawful;
    var job := s.jobs[m.job];
    var w, op := Turn(s.world, job.byLocal), job.stage.todo[0];
    JobHoldsTransfers(s, m.job, 0);
    ExecuteHasEffect(w, channel, job.stage.manifest, op);
    ConsentNamesTheLoss(w, job.stage.manifest, op, ExecuteOne(w, channel, job.stage.manifest, op).world, p);
  }

  /** The stages of a job that execute nothing change no file. */
  lemma OtherStagesLoseNothing(w: World, channel: Channel, stage: Stage, now: nat, limit: U64)
    requires stage.Running? ==> stage.todo == []
    ensures var v := Proceed(w, channel, stage, now, limit).world; v.local.disk == w.local.disk && v.peer.disk == w.peer.disk
  {
    hide Scan, ListFor, ExecuteOne, Enqueue;
    ScanChangesTheIndexOnly(w.peer);
  }

  lemma MoveLosses(s: System, channel: Channel, m: Move, byLocal: bool, p: Path)
    requires Inv(s) && channel.aead.Correct() && ScannedAt(s, byLocal, p) && SparesFile(m, byLocal, p)
    requires p in Side(s.world, byLocal).disk
    ensures StaysAt(Side(s.world, byLocal), Side(Make(s, channel, m).world, byLocal), p)
         || ExecutesAgreed(s, m, byLocal, p, Side(s.world, byLocal).disk[p])
  {
    hide Inv, ScannedAt, Proceed, DeleteFile, ExecutesAgreed, Resolve, Retry, ScanTables;
    if m.Advance? && m.job < |s.jobs| {
      var stage := s.jobs[m.job].stage;
      if stage.Running? && stage.todo != [] {
        ExecutionLosses(s, channel, m, byLocal, p);
      } else {
        OtherStagesLoseNothing(Turn(s.world, s.jobs[m.job].byLocal), channel, stage, m.now, m.limit);
      }
    } else if m.Do? && m.command.Delete? {
      DeleteElsewhere(Turn(s.world, m.byLocal), m.command.path, m.command.scope, p);
    }
  }

  lemma JobHoldsTransfers(s: System, j: nat, i: nat)
    requires Inv(s) && j < |s.jobs| && s.jobs[j].stage.Running? && i < |s.jobs[j].stage.todo|
    ensures var op := s.jobs[j].stage.todo[i]; op.IsTransfer() && QueueMachine.Lawful(op)
  {
    assert JobInv(QueueOf(Side(s.world, s.jobs[j].byLocal)), s.jobs[j].stage);
    assert InFlight(QueueOf(Side(s.world, s.jobs[j].byLocal)), s.jobs[j].stage.todo[i]);
  }

  // ------------------------------------------------------------------
  // What any moves can lose
  // ------------------------------------------------------------------

  /** At move `t` an operation was executed that the user of the executing device had
      resolved before, that writes this device, and that names exactly this file. */
  ghost predicate LostAt(s: System, channel: Channel, moves: seq<Move>, t: nat, byLocal: bool, p: Path, content: Content)
    requires t < |moves|
  {
    var before := Reach(s, channel, moves, t);
    && ExecutesAgreed(before, moves[t], byLocal, p, content)
    && var job := before.jobs[moves[t].job];
       WasResolved(moves, t, job.byLocal, job.stage.todo[0].id)
  }

  /** Whatever moves both devices make, with any number of jobs under way at once, from
      queues without resolved operations: a file that its device does not edit and nobody
      deletes is still there, or it was named, by path, hash and size, by an executed
      operation that writes its device, and that the user of the executing device had
      resolved before. */
  lemma {:induction false} EveryLossWasResolved(s: System, channel: Channel, moves: seq<Move>, n: nat, byLocal: bool, p: Path)
    requires n <= |moves| && Inv(s) && channel.aead.Correct() && s.jobs == []
    requires QueueMachine.NobodyConsented(QueueOf(s.world.local)) && QueueMachine.NobodyConsented(QueueOf(s.world.peer))
    requires forall k :: 0 <= k < n ==> SparesFile(moves[k], byLocal, p)
    requires p in Side(s.world, byLocal).disk
    ensures StaysAt(Side(s.world, byLocal), Side(Reach(s, channel, moves, n).world, byLocal), p)
         || exists t :: 0 <= t < n && LostAt(s, channel, moves, t, byLocal, p, Side(s.world, byLocal).disk[p])
  {
    hide Make, Inv, SparesFile, WasResolved, ScannedAt, Agreed, QueueMachine.NobodyConsented, QueueExplained;
    if n != 0 {
      EveryLossWasResolved(s, channel, moves, n - 1, byLocal, p);
      var before, after := Reach(s, channel, moves, n - 1), Reach(s, channel, moves, n);
      if StaysAt(Side(s.world, byLocal), Side(before.world, byLocal), p)
         && !StaysAt(Side(before.world, byLocal), Side(after.world, byLocal), p) {
        ReachableInv(s, channel, moves, n - 1);
        ScannedOverRuns(s, channel, moves, n - 1, byLocal, p);
        ConsentsOverRuns(s, channel, moves, n - 1);
        MoveLosses(before, channel, moves[n - 1], byLocal, p);
        ExecutedWasResolved(before, moves, n - 1, byLocal, p, Side(s.world, byLocal).disk[p]);
        assert LostAt(s, channel, moves, n - 1, byLocal, p, Side(s.world, byLocal).disk[p]);
      }
    }
  }

  lemma ExecutedWasResolved(s: System, moves: seq<Move>, n: nat, byLocal: bool, p: Path, content: Content)
    requires n < |moves| && ConsentsExplained(s, moves, n) && ExecutesAgreed(s, moves[n], byLocal, p, content)
    ensures var job := s.jobs[moves[n].job]; WasResolved(moves, n, job.byLocal, job.stage.todo[0].id)
  {
    hide WasResolved, QueueExplained;
    assert JobExplained(s.jobs[moves[n].job].stage, moves, n, s.jobs[moves[n].job].byLocal);
  }

  /** Without resolutions, no file that its device does not edit and nobody deletes is
      ever removed or changed. */
  lemma NothingLostWithoutConsent(s: System, channel: Channel, moves: seq<Move>, n: nat, byLocal: bool, p: Path)
    requires n <= |moves| && Inv(s) && channel.aead.Correct() && s.jobs == []
    requires QueueMachine.NobodyConsented(QueueOf(s.world.local)) && QueueMachine.NobodyConsented(QueueOf(s.world.peer))
    requires forall k :: 0 <= k < n ==> SparesFile(moves[k], byLocal, p) && !IsResolution(moves[k])
    ensures StaysAt(Side(s.world, byLocal), Side(Reach(s, channel, moves, n).world, byLocal), p)
  {
    hide Reach, Inv, SparesFile, ExecutesAgreed, QueueMachine.NobodyConsented;
    if p in Side(s.world, byLocal).disk {
      EveryLossWasResolved(s, channel, moves, n, byLocal, p);
    }
  }
}
