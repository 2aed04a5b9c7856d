/** Two folders that have never been synced: what they hold in the end, without any
    assumption about a state in between
    (crates/syncer-agent/src/main.rs:715-861; docs/syncer-design.md:20-24). */
module FirstSync {
  import opened Domain
  import opened StateTables
  import opened Devices
  import opened PeerServer
  import opened SyncEngine
  import opened Transfers
  import opened Reachability
  import opened Convergence
  import opened Rounds
  import Sums

  /** A device with files on disk and an empty database. */
  ghost predicate Fresh(d: Device) {
    d.tables == EmptyTables && PlainNames(d)
  }

  function FileSizes(disk: map<Path, Content>): map<Path, nat> {
    map p | p in disk :: |disk[p]|
  }

  /** The paths only one of the devices has. */
  function OneSided(w: World): nat {
    |w.local.disk.Keys - w.peer.disk.Keys| + |w.peer.disk.Keys - w.local.disk.Keys|
  }

  /** Both folders together fit into either of them. */
  ghost predicate BothFit(w: World) {
    var total := Sums.Sum(FileSizes(w.local.disk)) + Sums.Sum(FileSizes(w.peer.disk));
    total <= w.local.maxBytes && total <= w.peer.maxBytes
  }

  lemma {:induction false} PartIsSmaller(part: map<Path, nat>, whole: map<Path, nat>)
    requires forall p :: p in part ==> p in whole && whole[p] == part[p]
    ensures Sums.Sum(part) <= Sums.Sum(whole)
    decreases |part|
  {
    if part != map[] {
      var p :| p in part;
      Sums.SumWithout(part, p);
      Sums.SumWithout(whole, p);
      PartIsSmaller(part - {p}, whole - {p});
    }
  }

  lemma FirstScan(d: Device)
    requires Fresh(d)
    ensures var s := Scan(d);
      && s.tables.files.Keys == d.disk.Keys && Missing(s) == {}
      && IndexedBytes(s) == Sums.Sum(FileSizes(d.disk))
      && Sound(s) && s.tables.operations == [] && s.tables.nextId == 0
  {
    hide Sums.Sum;
    assert Sizes(Scan(d).tables.files) == FileSizes(d.disk);
  }

  lemma FirstScanWants(from: Device, to: Device)
    requires Fresh(from) && Fresh(to)
    ensures Wanted(Scan(from), Scan(to)).Keys == from.disk.Keys - to.disk.Keys
    ensures Sums.Sum(Wanted(Scan(from), Scan(to))) <= Sums.Sum(FileSizes(from.disk))
  {
    hide Sums.Sum;
    FirstScan(to);
    PartIsSmaller(Wanted(Scan(from), Scan(to)), FileSizes(from.disk));
  }

  /** After the first scan of both folders everything is ready for convergence. */
  lemma FirstScanQualifies(w: World)
    requires Fresh(w.local) && Fresh(w.peer) && BothFit(w)
    ensures var s := ScanBoth(w);
      WorldInv(s) && InStep(s) && Room(s) && Backlog(s) == OneSided(w)
  {
    hide Sums.Sum, Scan, Agrees, IndexedBytes, Wanted;
    FirstScan(w.local);
    FirstScan(w.peer);
    FirstScanWants(w.local, w.peer);
    FirstScanWants(w.peer, w.local);
    ScanOfFreshAgrees(w.local);
    ScanOfFreshAgrees(w.peer);
    CountKeys(Wanted(Scan(w.local), Scan(w.peer)));
    CountKeys(Wanted(Scan(w.peer), Scan(w.local)));
  }

  lemma CountKeys(m: map<Path, nat>)
    ensures |m| == |m.Keys|
  {
  }

  lemma ScanOfFreshAgrees(d: Device)
    requires Fresh(d)
    ensures Agrees(Scan(d)) && Scan(d).maxBytes == d.maxBytes
  {
    ScanAgrees(d);
  }

  /** The union of two folders; where both have a path, `first` wins. */
  function Union(first: map<Path, Content>, second: map<Path, Content>): map<Path, Content> {
    second + first
  }

  // ------------------------------------------------------------------
  // A round scans by itself
  // ------------------------------------------------------------------

  lemma ScanTwice(d: Device)
    ensures Scan(Scan(d)) == Scan(d)
  {
    var s := Scan(d);
    ScanChangesTheIndexOnly(d);
    ScanChangesTheIndexOnly(s);
    forall p ensures
      && (p in Scan(s).tables.files <==> p in s.tables.files)
      && (p in s.tables.files ==> Scan(s).tables.files[p] == s.tables.files[p])
      && (p in Scan(s).tables.scanMissing <==> p in s.tables.scanMissing)
    {
      ScanAt(d.tables, d.disk, d.id, p);
      ScanAt(s.tables, s.disk, s.id, p);
    }
    assert Scan(s).tables.files == s.tables.files && Scan(s).tables.scanMissing == s.tables.scanMissing;
    hide ScanTables;
  }

  lemma RoundOfScanned(w: World, channel: Channel, limit: U64, now: nat)
    ensures RunSyncOnce(ScanBoth(w), channel, limit, now) == RunSyncOnce(w, channel, limit, now)
  {
    hide Scan, RunSyncQueue, PlanFor, Enqueue;
    ScanTwice(w.local);
    ScanTwice(w.peer);
  }

  lemma {:induction false} RoundsOfScanned(w: World, channel: Channel, limit: U64, turns: Turns, k: nat)
    ensures k != 0 ==> AfterRounds(ScanBoth(w), channel, limit, turns, k) == AfterRounds(w, channel, limit, turns, k)
    ensures var v, u := AfterRounds(ScanBoth(w), channel, limit, turns, k), AfterRounds(w, channel, limit, turns, k);
      v.local.disk == u.local.disk && v.peer.disk == u.peer.disk
  {
    hide RunSyncOnce, Scan;
    if k == 0 {
      ScanChangesTheIndexOnly(w.local);
      ScanChangesTheIndexOnly(w.peer);
    } else if k == 1 {
      RoundOfScanned(Turn(w, turns.local(0)), channel, limit, turns.clock(0));
      assert AfterRounds(w, channel, limit, turns, 0) == w;
      assert AfterRounds(ScanBoth(w), channel, limit, turns, 0) == ScanBoth(w);
      assert Turn(ScanBoth(w), turns.local(0)) == ScanBoth(Turn(w, turns.local(0)));
    } else {
      RoundsOfScanned(w, channel, limit, turns, k - 1);
    }
  }

  /** Two fresh folders that fit together: after ceil(one-sided paths / limit) rounds,
      each made by either device, and ever after, each device holds the union of both folders, its own file
      winning where both had one; so they are equal if and only if they did not
      conflict to begin with. */
  lemma FirstSyncUnites(w: World, channel: Channel, limit: U64, turns: Turns, j: nat)
    requires Fresh(w.local) && Fresh(w.peer) && BothFit(w) && channel.aead.Correct()
    requires Allowed(w, turns) && 1 <= limit <= I64_MAX
    requires j >= RoundsNeeded(OneSided(w), limit)
    ensures var v := AfterRounds(w, channel, limit, turns, j);
      && v.local.disk == Union(w.local.disk, w.peer.disk)
      && v.peer.disk == Union(w.peer.disk, w.local.disk)
      && (v.local.disk == v.peer.disk <==>
            forall p :: p in w.local.disk && p in w.peer.disk ==> w.local.disk[p] == w.peer.disk[p])
  {
    hide WorldInv, InStep, Room, Backlog, AfterRounds, NothingPlanned, RoundsNeeded, Scan, OneSided, BothFit, Fresh;
    FirstScanQualifies(w);
    RoundsOfScanned(w, channel, limit, turns, j);
    var s := ScanBoth(w);
    assert Allowed(s, turns) && s.local.disk == w.local.disk && s.peer.disk == w.peer.disk by {
      ScanChangesTheIndexOnly(w.local);
      ScanChangesTheIndexOnly(w.peer);
    }
    Converges(s, channel, limit, turns, j);
    FirstScan(w.local);
    FirstScan(w.peer);
    var v := AfterRounds(s, channel, limit, turns, RoundsNeeded(OneSided(w), limit));
    UnitedAt(s, v);
    SameUnions(w.local.disk, w.peer.disk);
  }

  lemma UnitedAt(s: World, v: World)
    requires Progress(s, v) && Complete(s, v) && Missing(s.local) == {} && Missing(s.peer) == {}
    ensures v.local.disk == Union(s.local.disk, s.peer.disk) && v.peer.disk == Union(s.peer.disk, s.local.disk)
  {
  }

  lemma SameUnions(a: map<Path, Content>, b: map<Path, Content>)
    ensures Union(a, b) == Union(b, a) <==> forall p :: p in a && p in b ==> a[p] == b[p]
  {
    if Union(a, b) == Union(b, a) {
      forall p | p in a && p in b ensures a[p] == b[p] {
        assert Union(a, b)[p] == a[p] && Union(b, a)[p] == b[p];
      }
    }
  }
}
