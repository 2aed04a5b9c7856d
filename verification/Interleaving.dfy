/** Both agents at work at once. Planning and queue runs go on in stages, each of which
    is one database query, one request to the peer or one executed operation; between
    any two stages either device, its user or an edit may come in
    (crates/syncer-agent/src/main.rs:742-973). */
module Interleaving {
  import opened Domain
  import opened StateTables
  import opened Devices
  import opened PeerServer
  import opened SyncEngine
  import Planning

  // ------------------------------------------------------------------
  // Jobs
  // ------------------------------------------------------------------

  /** How far a plan or a queue run has got, with the manifests and operations it holds,
      however old they may have become. */
  datatype Stage =
    | PlanScanned(mine: Manifest)
    | PlanFetched(mine: Manifest, theirs: Manifest)
    | RunScanned
    | RunFetched(manifest: Manifest)
    | Running(manifest: Manifest, todo: seq<Operation>)
    | Finished

  datatype Job = Job(byLocal: bool, stage: Stage)

  /** Two devices and any number of jobs of either one. */
  datatype System = System(world: World, jobs: seq<Job>)

  datatype Move =
    | Do(byLocal: bool, command: Command)
    | StartPlan(byLocal: bool)
    | StartRun(byLocal: bool)
    | Advance(job: nat, now: nat, limit: U64)

  /** The pending operations for a peer: downloads first, uploads with what is left of the limit. */
  function ListFor(ops: seq<Operation>, peer: DeviceId, limit: nat): seq<Operation> {
    var downloads := ListPending(ops, peer, Download, limit);
    downloads + ListPending(ops, peer, Upload, SaturatingSub(limit, |downloads|))
  }

  function ScanOwn(w: World): World {
    w.(local := Scan(w.local))
  }

  /** GET /manifest: the peer scans its folder and sends its index. */
  function FetchManifest(w: World): World {
    w.(peer := Scan(w.peer))
  }

  datatype Progressed = Progressed(world: World, stage: Stage)

  /** The next stage of a job of the acting device. */
  ghost function Proceed(w: World, channel: Channel, stage: Stage, now: nat, limit: U64): Progressed {
    match stage
    case PlanScanned(mine) => Progressed(FetchManifest(w), PlanFetched(mine, ManifestOf(Scan(w.peer))))
    case PlanFetched(mine, theirs) =>
      (match Enqueue(w.local.tables, Planning.Plan(mine, theirs, w.local.mode), now)
       case Err(_) => Progressed(w, Finished)
       case Ok(tables) => Progressed(w.(local := w.local.(tables := tables)), Finished))
    case RunScanned => Progressed(FetchManifest(w), RunFetched(ManifestOf(Scan(w.peer))))
    case RunFetched(manifest) =>
      if limit > I64_MAX then Progressed(w, Finished)
      else Progressed(w, Running(manifest, ListFor(w.Operations(), manifest.device, limit)))
    case Running(manifest, todo) =>
      if todo == [] then Progressed(w, Finished)
      else Progressed(ExecuteOne(w, channel, manifest, todo[0]).world, Running(manifest, todo[1..]))
    case Finished => Progressed(w, Finished)
  }

  ghost function Make(s: System, channel: Channel, m: Move): System {
    match m
    case Do(byLocal, command) => s.(world := Turn(Perform(Turn(s.world, byLocal), command), byLocal))
    case StartPlan(byLocal) =>
      var w := ScanOwn(Turn(s.world, byLocal));
      System(Turn(w, byLocal), s.jobs + [Job(byLocal, PlanScanned(ManifestOf(w.local)))])
    case StartRun(byLocal) =>
      System(Turn(ScanOwn(Turn(s.world, byLocal)), byLocal), s.jobs + [Job(byLocal, RunScanned)])
    case Advance(j, now, limit) =>
      if j >= |s.jobs| then s
      else
        var job := s.jobs[j];
        var next := Proceed(Turn(s.world, job.byLocal), channel, job.stage, now, limit);
        System(Turn(next.world, job.byLocal), s.jobs[j := job.(stage := next.stage)])
  }

  /** The system after the first `n` moves. */
  ghost function Reach(s: System, channel: Channel, moves: seq<Move>, n: nat): System
    requires n <= |moves|
  {
    if n == 0 then s else Make(Reach(s, channel, moves, n - 1), channel, moves[n - 1])
  }

  lemma {:induction false} ReachPrefix(s: System, channel: Channel, a: seq<Move>, b: seq<Move>, n: nat)
    requires n <= |a|
    ensures Reach(s, channel, a + b, n) == Reach(s, channel, a, n)
  {
    hide Make;
    if n != 0 {
      ReachPrefix(s, channel, a, b, n - 1);
    }
  }

  /** Running on from where some moves have led. */
  lemma {:induction false} ReachOn(s: System, channel: Channel, a: seq<Move>, b: seq<Move>, n: nat)
    requires n <= |b|
    ensures Reach(s, channel, a + b, |a| + n) == Reach(Reach(s, channel, a, |a|), channel, b, n)
  {
    hide Make;
    if n == 0 {
      ReachPrefix(s, channel, a, b, |a|);
    } else {
      ReachOn(s, channel, a, b, n - 1);
      assert (a + b)[|a| + n - 1] == b[n - 1];
    }
  }

  // ------------------------------------------------------------------
  // In one piece
  // ------------------------------------------------------------------

  lemma TurnTwice(w: World, byLocal: bool)
    ensures Turn(Turn(w, byLocal), byLocal) == w
  {
  }

  /** The moves of a plan that nothing comes in between. */
  function PlanMoves(s: System, byLocal: bool, now: nat): (moves: seq<Move>)
    ensures |moves| == 3
  {
    [StartPlan(byLocal), Advance(|s.jobs|, now, 0), Advance(|s.jobs|, now, 0)]
  }

  /** They do what planning does in one piece. */
  lemma PlanInOnePiece(s: System, channel: Channel, byLocal: bool, now: nat)
    ensures var moves := PlanMoves(s, byLocal, now);
      Reach(s, channel, moves, 3)
      == System(Turn(EnqueuePlan(Turn(s.world, byLocal), now).world, byLocal), s.jobs + [Job(byLocal, Finished)])
  {
    hide Scan, Planning.Plan, Enqueue;
    var moves, w := PlanMoves(s, byLocal, now), Turn(s.world, byLocal);
    var one := Reach(s, channel, moves, 1);
    assert Reach(s, channel, moves, 0) == s;
    assert one == System(Turn(ScanOwn(w), byLocal), s.jobs + [Job(byLocal, PlanScanned(ManifestOf(Scan(w.local))))]);
    TurnTwice(ScanOwn(w), byLocal);
    var two := Reach(s, channel, moves, 2);
    TurnTwice(ScanBoth(w), byLocal);
    assert two == System(Turn(ScanBoth(w), byLocal),
      s.jobs + [Job(byLocal, PlanFetched(ManifestOf(Scan(w.local)), ManifestOf(Scan(w.peer))))]);
  }

  function Again(m: Move, k: nat): (r: seq<Move>)
    ensures |r| == k
  {
    if k == 0 then [] else Again(m, k - 1) + [m]
  }

  /** The moves of a queue run that nothing comes in between, up to the k-th operation. */
  function RunMoves(s: System, byLocal: bool, limit: U64, k: nat): (r: seq<Move>)
    ensures |r| == 3 + k
  {
    [StartRun(byLocal), Advance(|s.jobs|, 0, limit), Advance(|s.jobs|, 0, limit)] + Again(Advance(|s.jobs|, 0, limit), k)
  }

  lemma RunBegins(s: System, channel: Channel, byLocal: bool, limit: U64)
    requires limit <= I64_MAX
    ensures var w := ScanBoth(Turn(s.world, byLocal));
      Reach(s, channel, RunMoves(s, byLocal, limit, 0), 3)
      == System(Turn(w, byLocal), s.jobs + [Job(byLocal, Running(ManifestOf(w.peer), RunList(w, limit)))])
  {
    hide Scan, ListPending;
    var moves, w := RunMoves(s, byLocal, limit, 0), Turn(s.world, byLocal);
    assert Reach(s, channel, moves, 0) == s;
    var one := Reach(s, channel, moves, 1);
    assert one == System(Turn(ScanOwn(w), byLocal), s.jobs + [Job(byLocal, RunScanned)]);
    TurnTwice(ScanOwn(w), byLocal);
    var two := Reach(s, channel, moves, 2);
    TurnTwice(ScanBoth(w), byLocal);
    assert two == System(Turn(ScanBoth(w), byLocal), s.jobs + [Job(byLocal, RunFetched(ManifestOf(Scan(w.peer))))]);
  }

  lemma AdvanceExecutes(s: System, channel: Channel, j: nat, limit: U64)
    requires j < |s.jobs| && s.jobs[j].stage.Running? && s.jobs[j].stage.todo != []
    ensures var job := s.jobs[j]; var stage := job.stage;
      Make(s, channel, Advance(j, 0, limit))
      == System(Turn(ExecuteOne(Turn(s.world, job.byLocal), channel, stage.manifest, stage.todo[0]).world, job.byLocal),
                s.jobs[j := Job(job.byLocal, Running(stage.manifest, stage.todo[1..]))])
  {
    hide ExecuteOne;
  }

  /** They execute the operations that a run in one piece executes. */
  lemma {:induction false} RunInOnePiece(s: System, channel: Channel, byLocal: bool, limit: U64, k: nat)
    requires limit <= I64_MAX && k <= |RunList(ScanBoth(Turn(s.world, byLocal)), limit)|
    ensures var w := ScanBoth(Turn(s.world, byLocal)); var ops := RunList(w, limit);
      var moves := RunMoves(s, byLocal, limit, k);
      Reach(s, channel, moves, |moves|)
      == System(Turn(ExecuteFirst(w, channel, ManifestOf(w.peer), ops, k).world, byLocal),
                s.jobs + [Job(byLocal, Running(ManifestOf(w.peer), ops[k..]))])
  {
    hide Scan, RunList, ExecuteOne, Make;
    var w := ScanBoth(Turn(s.world, byLocal));
    var ops, moves := RunList(w, limit), RunMoves(s, byLocal, limit, k);
    if k == 0 {
      RunBegins(s, channel, byLocal, limit);
      assert ops[0..] == ops;
    } else {
      var earlier := RunMoves(s, byLocal, limit, k - 1);
      RunInOnePiece(s, channel, byLocal, limit, k - 1);
      assert moves == earlier + [Advance(|s.jobs|, 0, limit)];
      ReachPrefix(s, channel, earlier, [Advance(|s.jobs|, 0, limit)], |earlier|);
      var v := ExecuteFirst(w, channel, ManifestOf(w.peer), ops, k - 1).world;
      TurnTwice(v, byLocal);
      AdvanceExecutes(Reach(s, channel, earlier, |earlier|), channel, |s.jobs|, limit);
      assert ops[k - 1..][0] == ops[k - 1] && ops[k - 1..][1..] == ops[k..];
    }
  }

  /** A queue run in one piece is the special case in which nothing comes in between. */
  lemma QueueRunIsMoves(s: System, channel: Channel, byLocal: bool, limit: U64) returns (moves: seq<Move>)
    requires limit <= I64_MAX
    ensures Reach(s, channel, moves, |moves|).world
         == Turn(RunSyncQueue(Turn(s.world, byLocal), channel, limit).world, byLocal)
  {
    hide Scan, RunList, ExecuteFirst;
    var ops := RunList(ScanBoth(Turn(s.world, byLocal)), limit);
    moves := RunMoves(s, byLocal, limit, |ops|);
    RunInOnePiece(s, channel, byLocal, limit, |ops|);
  }

  /** So is a round: its plan, and if that was stored its queue run. */
  lemma RoundIsMoves(s: System, channel: Channel, byLocal: bool, limit: U64, now: nat) returns (moves: seq<Move>)
    requires limit <= I64_MAX
    ensures Reach(s, channel, moves, |moves|).world
         == Turn(RunSyncOnce(Turn(s.world, byLocal), channel, limit, now).world, byLocal)
  {
    hide EnqueuePlan, RunSyncQueue, Make, PlanMoves;
    moves := PlanMoves(s, byLocal, now);
    PlanInOnePiece(s, channel, byLocal, now);
    var queued := EnqueuePlan(Turn(s.world, byLocal), now);
    if queued.result.Ok? {
      var planned := Reach(s, channel, moves, 3);
      TurnTwice(queued.world, byLocal);
      var run := QueueRunIsMoves(planned, channel, byLocal, limit);
      ReachOn(s, channel, moves, run, |run|);
      moves := moves + run;
    }
  }
}
