/** What holds after any sequence of moves of two devices: the invariant of both, lawful
    queues, index and disk in agreement path by path, and the folder limit. */
module Invariants {
  import opened Domain
  import opened Devices
  import opened PeerServer
  import opened SyncEngine
  import opened Safety
  import opened Runs
  import opened Reachability
  import opened Effects
  import opened Interleaving
  import opened Jobs
  import opened Deletions
  import QueueMachine

  /** Every state that any moves lead to has the invariant, and the settings of both
      devices are what they were. */
  lemma {:induction false} ReachableInv(s: System, channel: Channel, moves: seq<Move>, n: nat)
    requires n <= |moves| && Inv(s) && channel.aead.Correct()
    ensures var t := Reach(s, channel, moves, n);
      Inv(t) && SameSettings(t.world.local, s.world.local) && SameSettings(t.world.peer, s.world.peer)
  {
    hide Make, Inv, MoveFacts;
    if n != 0 {
      ReachableInv(s, channel, moves, n - 1);
      var t := Reach(s, channel, moves, n - 1);
      var events := MakeFacts(t, channel, moves[n - 1]);
      MoveKeepsSettings(t, channel, moves[n - 1], events);
    }
  }

  lemma MoveKeepsSettings(s: System, channel: Channel, m: Move, events: seq<QueueMachine.Event>)
    requires var here := ByLocal(s, m); MoveFacts(Turn(s.world, here), Turn(Make(s, channel, m).world, here), m, events)
    ensures SameSettings(Make(s, channel, m).world.local, s.world.local)
    ensures SameSettings(Make(s, channel, m).world.peer, s.world.peer)
  {
    hide Make, Sound, IsQueueRun, EventsKeepMode, KeepsFolder;
  }

  // ------------------------------------------------------------------
  // The queues
  // ------------------------------------------------------------------

  /** The user of that device resolved nothing in the first `n` moves. */
  predicate NothingResolved(moves: seq<Move>, n: nat, byLocal: bool)
    requires n <= |moves|
  {
    forall i :: 0 <= i < n ==> IsResolution(moves[i]) ==> moves[i].byLocal != byLocal
  }

  /** The queue of either device only ever changes as the events of the queue machine
      allow, whatever the jobs of both do in between. */
  lemma {:induction false} EngineRunsAreQueueRuns(s: System, channel: Channel, moves: seq<Move>, n: nat, byLocal: bool)
    returns (events: seq<QueueMachine.Event>)
    requires n <= |moves| && Inv(s) && channel.aead.Correct()
    ensures IsQueueRun(QueueOf(Side(s.world, byLocal)), QueueOf(Side(Reach(s, channel, moves, n).world, byLocal)), events)
    ensures NothingResolved(moves, n, byLocal) ==> EventsKeepMode(events, Side(s.world, byLocal).mode)
  {
    hide Make, Inv, IsQueueRun, EventsKeepMode, MoveFacts;
    events := [];
    if n == 0 {
      NoEvents(QueueOf(Side(s.world, byLocal)));
      NoEventsKeepMode(Side(s.world, byLocal).mode);
    } else {
      var earlier := EngineRunsAreQueueRuns(s, channel, moves, n - 1, byLocal);
      ReachableInv(s, channel, moves, n - 1);
      var t := Reach(s, channel, moves, n - 1);
      var later := MoveEvents(t, channel, moves[n - 1], byLocal);
      QueueRunsCompose(QueueOf(Side(s.world, byLocal)), QueueOf(Side(t.world, byLocal)),
                       QueueOf(Side(Make(t, channel, moves[n - 1]).world, byLocal)), earlier, later);
      BothKeepMode(earlier, later, Side(s.world, byLocal).mode);
      events := earlier + later;
    }
  }

  /** What one move does to one of the queues. */
  lemma MoveEvents(s: System, channel: Channel, m: Move, byLocal: bool) returns (events: seq<QueueMachine.Event>)
    requires Inv(s) && channel.aead.Correct()
    ensures IsQueueRun(QueueOf(Side(s.world, byLocal)), QueueOf(Side(Make(s, channel, m).world, byLocal)), events)
    ensures !(IsResolution(m) && m.byLocal == byLocal) ==> EventsKeepMode(events, Side(s.world, byLocal).mode)
    ensures IsResolution(m) && m.byLocal == byLocal ==>
      events == [QueueMachine.ResolvedOne(m.command.id, m.command.resolution)]
  {
    hide Make, Inv, IsQueueRun, EventsKeepMode, Sound, KeepsFolder;
    events := MakeFacts(s, channel, m);
    if ByLocal(s, m) != byLocal {
      events := [];
      NoEvents(QueueOf(Side(s.world, byLocal)));
      NoEventsKeepMode(Side(s.world, byLocal).mode);
    }
  }

  lemma BothKeepMode(a: seq<QueueMachine.Event>, b: seq<QueueMachine.Event>, mode: FolderMode)
    ensures EventsKeepMode(a, mode) && EventsKeepMode(b, mode) ==> EventsKeepMode(a + b, mode)
  {
  }

  // ------------------------------------------------------------------
  // What a move keeps of one device
  // ------------------------------------------------------------------

  /** The device edits or deletes files itself. */
  predicate ChangesOwnFiles(m: Move, byLocal: bool) {
    IsEditOrDelete(m) && m.byLocal == byLocal
  }

  lemma MoveKeeps(s: System, channel: Channel, m: Move, byLocal: bool)
    requires Inv(s) && channel.aead.Correct() && !ChangesOwnFiles(m, byLocal)
    ensures KeepsFolder(Side(s.world, byLocal), Side(Make(s, channel, m).world, byLocal))
  {
    hide Inv, IsQueueRun, EventsKeepMode, Sound, KeepsFolder, Proceed, DeleteFile, Scan;
    var events := MakeFacts(s, channel, m);
    if IsEditOrDelete(m) {
      var w := Turn(s.world, m.byLocal);
      InvIsSound(s);
      SameButQueue(w.peer, w.peer);
      if m.command.Delete? {
        DeleteFacts(w, m.command.path, m.command.scope);
        KeepsIsKeepsFolder(w.peer, DeleteFile(w, m.command.path, m.command.scope).world.peer);
      }
    }
  }

  lemma InvIsSound(s: System)
    requires Inv(s)
    ensures Sound(s.world.local) && Sound(s.world.peer)
  {
  }

  // ------------------------------------------------------------------
  // Agreement
  // ------------------------------------------------------------------

  /** The move is no edit of that device at the path, and no deletion there that leaves
      its record behind. */
  predicate KeepsIndexAt(w: World, m: Move, byLocal: bool, p: Path) {
    ChangesOwnFiles(m, byLocal) ==>
      match m.command
      case Edit(name, _) => name != p
      case Delete(path, scope) =>
        path == p && scope != LocalOnly ==> p !in Side(w, byLocal).disk || ReachesTheSameFile(Turn(w, byLocal), p, scope.peerGiven)
      case _ => true
  }

  lemma MoveKeepsAgreement(s: System, channel: Channel, m: Move, byLocal: bool, p: Path)
    requires Inv(s) && channel.aead.Correct() && KeepsIndexAt(s.world, m, byLocal, p) && AgreesAt(Side(s.world, byLocal), p)
    ensures AgreesAt(Side(Make(s, channel, m).world, byLocal), p)
  {
    hide Inv, Sound, KeepsFolder, Proceed, DeleteFile, Scan, ReachesTheSameFile;
    InvIsSound(s);
    if ChangesOwnFiles(m, byLocal) {
      var w := Turn(s.world, byLocal);
      match m.command
      case Edit(name, _) =>
      case Delete(path, scope) =>
        if path != p {
          DeleteElsewhere(w, path, scope, p);
        } else if scope.LocalOnly? {
          LocalOnlyDeleteAgrees(w, path);
        } else {
          PropagatedDeleteAt(w, path, scope.peerGiven);
        }
    } else {
      hide Make, AgreesAt;
      MoveKeeps(s, channel, m, byLocal);
      KeepsFolderFacts(Side(s.world, byLocal), Side(Make(s, channel, m).world, byLocal));
    }
  }

  /** Index and disk of either device stay in agreement about a path through all moves but
      its own edits of that file and its own deletions of it that reach no peer with the
      same file; whatever happens to other files, on the other device and in any job. */
  lemma {:induction false} AgreementOverRuns(s: System, channel: Channel, moves: seq<Move>, n: nat, byLocal: bool, p: Path)
    requires n <= |moves| && Inv(s) && channel.aead.Correct() && AgreesAt(Side(s.world, byLocal), p)
    requires forall k :: 0 <= k < n ==> KeepsIndexAt(Reach(s, channel, moves, k).world, moves[k], byLocal, p)
    ensures AgreesAt(Side(Reach(s, channel, moves, n).world, byLocal), p)
  {
    hide Make, Inv, AgreesAt, KeepsIndexAt;
    if n != 0 {
      AgreementOverRuns(s, channel, moves, n - 1, byLocal, p);
      ReachableInv(s, channel, moves, n - 1);
      MoveKeepsAgreement(Reach(s, channel, moves, n - 1), channel, moves[n - 1], byLocal, p);
    }
  }

  /** So does a whole device through moves that do this for every path. */
  lemma DeviceAgreementOverRuns(s: System, channel: Channel, moves: seq<Move>, n: nat, byLocal: bool)
    requires n <= |moves| && Inv(s) && channel.aead.Correct() && Agrees(Side(s.world, byLocal))
    requires forall k, p :: 0 <= k < n ==> KeepsIndexAt(Reach(s, channel, moves, k).world, moves[k], byLocal, p)
    ensures Agrees(Side(Reach(s, channel, moves, n).world, byLocal))
  {
    hide Make, Inv, Agrees, AgreesAt, KeepsIndexAt, Sound, PlainNames;
    var before, after := Side(s.world, byLocal), Side(Reach(s, channel, moves, n).world, byLocal);
    AgreesPathByPath(before);
    AgreesPathByPath(after);
    ReachableInv(s, channel, moves, n);
    InvIsSound(Reach(s, channel, moves, n));
    SoundHasPlainNames(after);
    forall p ensures AgreesAt(after, p) {
      AgreementOverRuns(s, channel, moves, n, byLocal, p);
    }
  }

  // ------------------------------------------------------------------
  // The folder limit
  // ------------------------------------------------------------------

  lemma MoveStaysWithin(s: System, channel: Channel, m: Move, byLocal: bool)
    requires Inv(s) && channel.aead.Correct() && Covered(Side(s.world, byLocal))
    requires m.Do? && m.command.Edit? ==> m.byLocal != byLocal
    ensures var after := Side(Make(s, channel, m).world, byLocal);
      Covered(after) && WithinLimit(Side(s.world, byLocal), after)
  {
    hide Inv, Sound, KeepsFolder, Proceed, DeleteFile, Scan, Covered, IndexedBytes, AgreesAt;
    if ChangesOwnFiles(m, byLocal) {
      DeleteWithin(Turn(s.world, byLocal), m.command.path, m.command.scope);
    } else {
      hide Make;
      MoveKeeps(s, channel, m, byLocal);
      KeepsFolderFacts(Side(s.world, byLocal), Side(Make(s, channel, m).world, byLocal));
    }
  }

  /** Over any moves of both devices, edits by this one apart, its indexed bytes never
      exceed the larger of where they started and its folder limit. */
  lemma {:induction false} FolderLimitOverRuns(s: System, channel: Channel, moves: seq<Move>, n: nat, byLocal: bool)
    requires n <= |moves| && Inv(s) && channel.aead.Correct() && Covered(Side(s.world, byLocal))
    requires forall k :: 0 <= k < n && moves[k].Do? && moves[k].command.Edit? ==> moves[k].byLocal != byLocal
    ensures var after := Side(Reach(s, channel, moves, n).world, byLocal);
      Covered(after) && WithinLimit(Side(s.world, byLocal), after)
  {
    hide Make, Inv, Covered, IndexedBytes;
    if n != 0 {
      FolderLimitOverRuns(s, channel, moves, n - 1, byLocal);
      ReachableInv(s, channel, moves, n - 1);
      MoveStaysWithin(Reach(s, channel, moves, n - 1), channel, moves[n - 1], byLocal);
    }
  }
}
