/** Comparison of two manifests (crates/syncer-core/src/planning.rs). */
module Planning {
  import opened Wrappers
  import opened Domain
  import Ordering

  function PlanExistingPath(path: Path, local: FileRecord, remote: FileRecord): SyncPlanEntry {
    var both := SyncPlanEntry(
      path, InSync, Some(local.size), Some(remote.size), local.hash, remote.hash, ContentMatches);
    if local.state == UnsynchronizedLocalMissing then
      both.(action := LocalMissingUnsynchronized, reason := LocalSideMissing)
    else if remote.state == UnsynchronizedLocalMissing then
      both.(action := RemoteMissingUnsynchronized, reason := RemoteSideMissing)
    else if local.hash == remote.hash && local.size == remote.size then
      both
    else
      both.(action := Conflict, reason := ContentDiffers)
  }

  function PlanPath(path: Path, local: Option<FileRecord>, remote: Option<FileRecord>): SyncPlanEntry {
    match (local, remote)
    case (Some(l), Some(r)) => PlanExistingPath(path, l, r)
    case (Some(l), None) =>
      if l.state == UnsynchronizedLocalMissing then
        SyncPlanEntry(path, LocalMissingUnsynchronized, Some(l.size), None, l.hash, None, LocalSideMissing)
      else
        SyncPlanEntry(path, UploadToRemote, Some(l.size), None, l.hash, None, RemoteLacksFile)
    case (None, Some(r)) =>
      if r.state == UnsynchronizedLocalMissing then
        SyncPlanEntry(path, RemoteMissingUnsynchronized, None, Some(r.size), None, r.hash, RemoteSideMissing)
      else
        SyncPlanEntry(path, DownloadFromRemote, None, Some(r.size), None, r.hash, LocalLacksFile)
    case (None, None) => SyncPlanEntry(path, InSync, None, None, None, None, AbsentOnBothSides)
  }

  function ApplyFolderMode(entry: SyncPlanEntry, mode: FolderMode): SyncPlanEntry {
    match (mode, entry.action)
    case (UploadOnly, DownloadFromRemote) => entry.(action := ModeBlocked, reason := FolderIsUploadOnly)
    case (DownloadOnly, UploadToRemote) => entry.(action := ModeBlocked, reason := FolderIsDownloadOnly)
    case _ => entry
  }

  function Lookup(files: map<Path, FileRecord>, path: Path): Option<FileRecord> {
    if path in files then Some(files[path]) else None
  }

  /** The one entry a plan holds for `path`. */
  function EntryFor(local: Manifest, remote: Manifest, mode: FolderMode, path: Path): (r: SyncPlanEntry)
    ensures r.path == path
  {
    ApplyFolderMode(PlanPath(path, Lookup(local.files, path), Lookup(remote.files, path)), mode)
  }

  function Entries(local: Manifest, remote: Manifest, mode: FolderMode, paths: seq<Path>): (r: seq<SyncPlanEntry>)
    ensures |r| == |paths|
    ensures forall i :: 0 <= i < |r| ==> r[i] == EntryFor(local, remote, mode, paths[i])
  {
    seq(|paths|, i requires 0 <= i < |paths| => EntryFor(local, remote, mode, paths[i]))
  }

  function OneIf(b: bool): nat {
    if b then 1 else 0
  }

  function Increment(s: SyncPlanSummary, action: SyncAction): SyncPlanSummary {
    SyncPlanSummary(
      s.inSync + OneIf(action.InSync?),
      s.uploadToRemote + OneIf(action.UploadToRemote?),
      s.downloadFromRemote + OneIf(action.DownloadFromRemote?),
      s.conflicts + OneIf(action.Conflict?),
      s.localMissing + OneIf(action.LocalMissingUnsynchronized?),
      s.remoteMissing + OneIf(action.RemoteMissingUnsynchronized?),
      s.modeBlocked + OneIf(action.ModeBlocked?))
  }

  /** The summary of the first `n` entries. */
  function Summarize(entries: seq<SyncPlanEntry>, n: nat): SyncPlanSummary
    requires n <= |entries|
  {
    if n == 0 then SyncPlanSummary(0, 0, 0, 0, 0, 0, 0)
    else Increment(Summarize(entries, n - 1), entries[n - 1].action)
  }

  /** The plan as a value: one entry per path of either side, in path order. */
  function Plan(local: Manifest, remote: Manifest, mode: FolderMode): SyncPlan {
    var entries := Entries(local, remote, mode, Ordering.Sorted(local.files.Keys + remote.files.Keys));
    SyncPlan(local.device, remote.device, entries, Summarize(entries, |entries|))
  }

  method PlanManifestSyncForMode(local: Manifest, remote: Manifest, mode: FolderMode) returns (plan: SyncPlan)
    ensures plan == Plan(local, remote, mode)
  {
    hide EntryFor, Increment, Ordering.Sorted, Ordering.StrictlyIncreasing, Entries;
    var paths := Ordering.Sorted(local.files.Keys + remote.files.Keys);
    ghost var all := Entries(local, remote, mode, paths);
    var entries: seq<SyncPlanEntry>, summary := [], SyncPlanSummary(0, 0, 0, 0, 0, 0, 0);
    for i := 0 to |paths|
      invariant entries == all[..i]
      invariant summary == Summarize(all, i)
    {
      var entry := EntryFor(local, remote, mode, paths[i]);
      summary := Increment(summary, entry.action);
      assert all[..i + 1] == all[..i] + [entry];
      entries := entries + [entry];
    }
    assert all[..|paths|] == all;
    plan := SyncPlan(local.device, remote.device, entries, summary);
  }

  ghost predicate InPathOrder(entries: seq<SyncPlanEntry>) {
    forall i, j :: 0 <= i < j < |entries| ==> Ordering.LexLess(entries[i].path, entries[j].path)
  }

  lemma PlanFollowsPaths(local: Manifest, remote: Manifest, mode: FolderMode)
    ensures var e, paths := Plan(local, remote, mode).entries, Ordering.Sorted(local.files.Keys + remote.files.Keys);
      |e| == |paths| && forall i :: 0 <= i < |e| ==> e[i] == EntryFor(local, remote, mode, paths[i])
  {
    hide EntryFor, Summarize, Ordering.Sorted, Ordering.StrictlyIncreasing, Entries;
  }

  lemma PlanIncreases(local: Manifest, remote: Manifest, mode: FolderMode)
    ensures InPathOrder(Plan(local, remote, mode).entries)
  {
    hide EntryFor, Plan, Ordering.Sorted, Ordering.LexLess;
    PlanFollowsPaths(local, remote, mode);
  }

  /** Every path of either side has exactly one entry, entries come in strictly
      increasing path order, and no other path has one. */
  lemma PlanCovers(local: Manifest, remote: Manifest, mode: FolderMode)
    ensures var e := Plan(local, remote, mode).entries;
      && InPathOrder(e)
      && (forall p :: p in local.files || p in remote.files <==> exists i :: 0 <= i < |e| && e[i].path == p)
      && (forall i :: 0 <= i < |e| ==> e[i] == EntryFor(local, remote, mode, e[i].path))
      && |e| == |local.files.Keys + remote.files.Keys|
  {
    hide EntryFor, Plan, InPathOrder, Ordering.Sorted, Ordering.StrictlyIncreasing;
    PlanIncreases(local, remote, mode);
    PlanFollowsPaths(local, remote, mode);
    var paths := Ordering.Sorted(local.files.Keys + remote.files.Keys);
    var e := Plan(local, remote, mode).entries;
    forall p | p in local.files || p in remote.files ensures exists i :: 0 <= i < |e| && e[i].path == p {
      assert p in paths;
      var i :| 0 <= i < |paths| && paths[i] == p;
      assert e[i].path == p;
    }
    forall p, i | 0 <= i < |e| && e[i].path == p ensures p in local.files || p in remote.files {
      assert paths[i] in paths;
    }
  }

  lemma PlanNamesPeers(local: Manifest, remote: Manifest, mode: FolderMode)
    ensures Plan(local, remote, mode).localDevice == local.device
    ensures Plan(local, remote, mode).remoteDevice == remote.device
  {
  }

  lemma PlanHolds(local: Manifest, remote: Manifest, mode: FolderMode, e: SyncPlanEntry)
    requires e in Plan(local, remote, mode).entries
    ensures e == EntryFor(local, remote, mode, e.path) && (e.path in local.files || e.path in remote.files)
  {
    hide EntryFor, Plan, InPathOrder;
    PlanCovers(local, remote, mode);
  }

  function Total(s: SyncPlanSummary): nat {
    s.inSync + s.uploadToRemote + s.downloadFromRemote + s.conflicts + s.localMissing + s.remoteMissing + s.modeBlocked
  }

  function CountAction(entries: seq<SyncPlanEntry>, n: nat, action: SyncAction): nat
    requires n <= |entries|
  {
    if n == 0 then 0
    else CountAction(entries, n - 1, action) + OneIf(entries[n - 1].action == action)
  }

  /** Each field counts the first `n` entries with its action. */
  predicate FieldsByName(s: SyncPlanSummary, entries: seq<SyncPlanEntry>, n: nat)
    requires n <= |entries|
  {
    && s.inSync == CountAction(entries, n, InSync)
    && s.uploadToRemote == CountAction(entries, n, UploadToRemote)
    && s.downloadFromRemote == CountAction(entries, n, DownloadFromRemote)
    && s.conflicts == CountAction(entries, n, Conflict)
    && s.localMissing == CountAction(entries, n, LocalMissingUnsynchronized)
    && s.remoteMissing == CountAction(entries, n, RemoteMissingUnsynchronized)
    && s.modeBlocked == CountAction(entries, n, ModeBlocked)
  }

  lemma NothingCounted(entries: seq<SyncPlanEntry>)
    ensures FieldsByName(Summarize(entries, 0), entries, 0) && Total(Summarize(entries, 0)) == 0
  {
  }

  lemma OneEntryMore(s: SyncPlanSummary, entries: seq<SyncPlanEntry>, n: nat)
    requires n < |entries| && FieldsByName(s, entries, n)
    ensures FieldsByName(Increment(s, entries[n].action), entries, n + 1)
    ensures Total(Increment(s, entries[n].action)) == Total(s) + 1
  {
  }

  /** Each summary field counts the entries with its action, and the fields add
      up to the number of entries. */
  lemma {:induction false} SummaryAddsUp(entries: seq<SyncPlanEntry>, n: nat)
    requires n <= |entries|
    ensures FieldsByName(Summarize(entries, n), entries, n)
    ensures Total(Summarize(entries, n)) == n
  {
    hide Increment, FieldsByName, Total;
    if n != 0 {
      SummaryAddsUp(entries, n - 1);
      OneEntryMore(Summarize(entries, n - 1), entries, n - 1);
    } else {
      NothingCounted(entries);
    }
  }

  // ------------------------------------------------------------------
  // Seen from the other device
  // ------------------------------------------------------------------

  function FlipMode(mode: FolderMode): FolderMode {
    match mode
    case Bidirectional => Bidirectional
    case UploadOnly => DownloadOnly
    case DownloadOnly => UploadOnly
  }

  function FlipAction(action: SyncAction): SyncAction {
    match action
    case UploadToRemote => DownloadFromRemote
    case DownloadFromRemote => UploadToRemote
    case LocalMissingUnsynchronized => RemoteMissingUnsynchronized
    case RemoteMissingUnsynchronized => LocalMissingUnsynchronized
    case _ => action
  }

  function FlipReason(reason: Reason): Reason {
    match reason
    case LocalSideMissing => RemoteSideMissing
    case RemoteSideMissing => LocalSideMissing
    case RemoteLacksFile => LocalLacksFile
    case LocalLacksFile => RemoteLacksFile
    case FolderIsUploadOnly => FolderIsDownloadOnly
    case FolderIsDownloadOnly => FolderIsUploadOnly
    case _ => reason
  }

  function FlipEntry(e: SyncPlanEntry): SyncPlanEntry {
    SyncPlanEntry(e.path, FlipAction(e.action), e.remoteSize, e.localSize, e.remoteHash, e.localHash, FlipReason(e.reason))
  }

  predicate MissingOn(m: Manifest, path: Path) {
    path in m.files && m.files[path].state == UnsynchronizedLocalMissing
  }

  /** The peer's plan under the flipped mode mirrors this one at a path exactly
      when the path is not recorded as missing on both sides. */
  lemma PlanMirrors(local: Manifest, remote: Manifest, mode: FolderMode, path: Path)
    ensures EntryFor(remote, local, FlipMode(mode), path) == FlipEntry(EntryFor(local, remote, mode, path))
       <==> !(MissingOn(local, path) && MissingOn(remote, path))
  {
    var here := EntryFor(local, remote, mode, path);
    var there := EntryFor(remote, local, FlipMode(mode), path);
    if MissingOn(local, path) && MissingOn(remote, path) {
      assert here.action == there.action == LocalMissingUnsynchronized;
    }
  }

  /** Both plans list the same paths at the same positions. */
  lemma PlansAlign(local: Manifest, remote: Manifest, mode: FolderMode, i: nat)
    requires i < |Plan(local, remote, mode).entries|
    ensures |Plan(remote, local, FlipMode(mode)).entries| == |Plan(local, remote, mode).entries|
    ensures Plan(remote, local, FlipMode(mode)).entries[i].path == Plan(local, remote, mode).entries[i].path
  {
    hide EntryFor, Summarize, Ordering.Sorted;
    assert local.files.Keys + remote.files.Keys == remote.files.Keys + local.files.Keys;
  }
}
