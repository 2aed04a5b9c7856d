/** A folder of the agent scanned by walking its directory tree
    (crates/syncer-core/src/scanner.rs:48-148). */
module FolderScan {
  import opened Wrappers
  import opened Domain
  import opened Devices
  import opened Scanner
  import opened ScanTrees
  import opened ScanCompletion
  import opened ScanCounts
  import opened Agent
  import StateTables
  import Sums

  /** The walk leaves the index that `Folder.ScanFolder` leaves, and counts every file
      of the folder; if it fails, only the index has changed, and a later walk that
      completes makes up for it. When no call fails, the names in the folder decide. */
  method ScanTree(folder: Folder, root: Node, faults: set<Call>) returns (r: Result<ScanSummary, ScanError>)
    requires root.Directory? && NormalTree(root, 0) && TidyFiles(root) && IsDisk(folder.disk, root)
    modifies folder.db
    ensures r.Ok? <==> OfDirectory("", root, faults).clean
    ensures r.Ok? ==> EntriesParse(root)
    ensures faults == {} ==> (r.Ok? <==> EntriesParse(root))
    ensures faults == {} && TidyEntries(root) ==> r.Ok?
    ensures r.Ok? ==> folder.View() == Scan(old(folder.View())) && r.value.files == |folder.disk|
    ensures r.Ok? ==> r.value.bytes == Sums.Sum(DiskSizes(folder.disk))
    ensures r.Ok? ==> forall paths: set<string> ::
      && (AreAll(paths, root, true) ==> r.value.directories == |paths|)
      && (AreAll(paths, root, false) ==> r.value.unsupported == |paths|)
    ensures Scan(folder.View()) == Scan(old(folder.View())) || r.Ok?
  {
    hide NormalTree, TidyFiles, IsDisk, OfDirectory, Covers, Drawn, StateTables.ScanTables, StateTables.AbortedScan,
      EntriesParse, TidyEntries, AreAll, Sums.Sum;
    ghost var before := folder.View();
    ghost var seen;
    WalkCompletes(root, faults);
    if TidyEntries(root) {
      TidyEntriesParse(root);
    }
    r, seen := ScanInto(root, faults, folder.db, folder.id);
    if r.Ok? {
      WalkIsScan(before, root, faults, seen);
      CompleteWalkSeesTheDisk(root, faults, seen);
      SameDisk(folder.disk, seen, root);
      CompletedWalkWeighs(root, faults, folder.disk);
      forall paths: set<string>, dirs | AreAll(paths, root, dirs)
        ensures |paths| == if dirs then OfDirectory("", root, faults).directories else OfDirectory("", root, faults).unsupported
      {
        CompletedWalkCounts(root, faults, paths, dirs);
      }
    } else {
      FailedWalkIsRepaired(before, root, faults, seen);
    }
  }
}
