/** The walk over a folder that feeds the index
    (crates/syncer-core/src/scanner.rs:48-148). */
module Scanner {
  import opened Wrappers
  import opened Domain
  import opened StateTables
  import opened StateDb
  import opened Text
  import RelativePaths

  /** What lies under a name in the file system; a name that is not UTF-8 is `None`. */
  datatype Node = Regular(content: Content) | Directory(entries: seq<Entry>) | Special
  datatype Entry = Entry(name: Option<string>, node: Node)

  /** The calls the walk makes, and which may fail: opening a directory, asking for
      its entry number `entry` (or for the end), and looking at or reading a file. */
  datatype Call = Open(raw: string) | Next(raw: string, entry: nat) | Stat(raw: string) | Read(raw: string)

  datatype ScanError = Filesystem | BadPath(error: RelativePaths.PathError) | Database(core: CoreError)

  datatype ScanSummary = ScanSummary(files: nat, directories: nat, bytes: nat, unsupported: nat, missing: nat)

  function Below(dir: string, name: string): string {
    if dir == "" then name else dir + "/" + name
  }

  predicate IsMetadata(raw: string) {
    Split(raw, '/')[0] == RelativePaths.SYNCER_DIR
  }

  // ------------------------------------------------------------------
  // What there is to find, by recursion over the tree
  // ------------------------------------------------------------------

  /** The files with the paths they are indexed under, the counts, and whether no
      call of the walk fails. */
  datatype Found = Found(files: multiset<(Path, Content)>, directories: nat, bytes: nat, unsupported: nat, clean: bool)
  {
    function Plus(that: Found): Found {
      Found(files + that.files, directories + that.directories, bytes + that.bytes,
            unsupported + that.unsupported, clean && that.clean)
    }
  }

  const NOTHING := Found(multiset{}, 0, 0, 0, true)
  const FAILURE := Found(multiset{}, 0, 0, 0, false)

  function OfEntry(dir: string, e: Entry, faults: set<Call>): Found
    decreases e, 0
  {
    match e.name
    case None => FAILURE
    case Some(name) =>
      var raw := Below(dir, name);
      if IsMetadata(raw) then NOTHING
      else
        match RelativePaths.Parse(raw)
        case Err(_) => FAILURE
        case Ok(path) =>
          var stats := Stat(raw) !in faults;
          match e.node
          case Regular(content) =>
            Found(multiset{(path, content)}, 0, |content|, 0, stats && Read(raw) !in faults)
          case Special => Found(multiset{}, 0, 0, 1, stats)
          case Directory(_) => Found(multiset{}, 1, 0, 0, stats).Plus(OfDirectory(raw, e.node, faults))
  }

  function OfEntries(dir: string, node: Node, i: nat, faults: set<Call>): Found
    requires node.Directory? && i <= |node.entries|
    decreases node, |node.entries| - i
  {
    var listed := Found(multiset{}, 0, 0, 0, Next(dir, i) !in faults);
    if i == |node.entries| then listed
    else listed.Plus(OfEntry(dir, node.entries[i], faults).Plus(OfEntries(dir, node, i + 1, faults)))
  }

  function OfDirectory(dir: string, node: Node, faults: set<Call>): Found
    requires node.Directory?
    decreases node, |node.entries| + 1
  {
    var found := OfEntries(dir, node, 0, faults);
    found.(clean := found.clean && Open(dir) !in faults)
  }

  // ------------------------------------------------------------------
  // The walk with its stack
  // ------------------------------------------------------------------

  ghost predicate Directories(stack: seq<(string, Node)>) {
    forall i :: 0 <= i < |stack| ==> stack[i].1.Directory?
  }

  /** What the directories on the stack still hold. */
  ghost function OfStack(stack: seq<(string, Node)>, faults: set<Call>): Found
    requires Directories(stack)
  {
    if stack == [] then NOTHING
    else
      var top := stack[|stack| - 1];
      OfDirectory(top.0, top.1, faults).Plus(OfStack(stack[..|stack| - 1], faults))
  }

  /** Everything in `seen` is one of the files. */
  ghost predicate Drawn(seen: map<Path, Content>, files: multiset<(Path, Content)>) {
    forall p :: p in seen ==> (p, seen[p]) in files
  }

  /** Besides, every file has its path in `seen`. */
  ghost predicate Covers(seen: map<Path, Content>, files: multiset<(Path, Content)>) {
    Drawn(seen, files) && forall f :: f in files ==> f.0 in seen
  }

  lemma Move(done: Found, one: Found, inner: Found, rest: Found, stack: Found)
    ensures done.Plus(one.Plus(inner).Plus(rest)).Plus(stack) == done.Plus(one).Plus(rest).Plus(inner.Plus(stack))
    ensures done.Plus(one.Plus(rest)).Plus(stack) == done.Plus(one).Plus(rest).Plus(stack)
    ensures done.Plus(NOTHING) == done && NOTHING.Plus(done) == done
  {
  }

  lemma PopDirectory(done: Found, stack: seq<(string, Node)>, faults: set<Call>, all: Found)
    requires stack != [] && Directories(stack) && done.Plus(OfStack(stack, faults)) == all
    ensures var (dir, node) := stack[|stack| - 1];
      && node.Directory?
      && (Open(dir) in faults ==> !all.clean)
      && (Open(dir) !in faults ==>
            done.Plus(OfEntries(dir, node, 0, faults)).Plus(OfStack(stack[..|stack| - 1], faults)) == all)
  {
    hide OfEntries;
    var (dir, node) := stack[|stack| - 1];
    var rest := OfStack(stack[..|stack| - 1], faults);
    if Open(dir) !in faults {
      Move(done, OfEntries(dir, node, 0, faults), NOTHING, rest, NOTHING);
      Move(done.Plus(OfEntries(dir, node, 0, faults)).Plus(rest), NOTHING, NOTHING, NOTHING, NOTHING);
      Move(done.Plus(OfEntries(dir, node, 0, faults).Plus(rest)), NOTHING, NOTHING, NOTHING, NOTHING);
    }
  }

  /** The rest of a directory after one entry that holds nothing below it. */
  lemma NextEntry(done: Found, dir: string, node: Node, i: nat, faults: set<Call>, stack: Found, all: Found)
    requires node.Directory? && i < |node.entries|
    requires done.Plus(OfEntries(dir, node, i, faults)).Plus(stack) == all
    ensures Next(dir, i) in faults || !OfEntry(dir, node.entries[i], faults).clean ==> !all.clean
    ensures Next(dir, i) !in faults ==> done.Plus(OfEntry(dir, node.entries[i], faults)).Plus(OfEntries(dir, node, i + 1, faults)).Plus(stack) == all
  {
    hide OfEntry;
    var rest := OfEntry(dir, node.entries[i], faults).Plus(OfEntries(dir, node, i + 1, faults));
    Move(rest, NOTHING, NOTHING, NOTHING, NOTHING);
    Move(done, OfEntry(dir, node.entries[i], faults), NOTHING, OfEntries(dir, node, i + 1, faults), stack);
  }

  /** The same when the entry is a directory that goes on the stack. */
  lemma PushDirectory(done: Found, raw: string, child: Node, rest: Found, stack: seq<(string, Node)>, faults: set<Call>)
    requires Directories(stack) && child.Directory?
    ensures Directories(stack + [(raw, child)])
    ensures var one := Found(multiset{}, 1, 0, 0, true);
      done.Plus(one.Plus(OfDirectory(raw, child, faults))).Plus(rest).Plus(OfStack(stack, faults))
      == done.Plus(one).Plus(rest).Plus(OfStack(stack + [(raw, child)], faults))
  {
    hide OfDirectory;
    var one, inner, held := Found(multiset{}, 1, 0, 0, true), OfDirectory(raw, child, faults), OfStack(stack, faults);
    Move(done, one.Plus(inner), NOTHING, rest, held);
    Move(done, one, inner, rest, held);
    assert (stack + [(raw, child)])[..|stack|] == stack;
  }

  lemma StackOfOne(root: Node, faults: set<Call>)
    requires root.Directory?
    ensures NOTHING.Plus(OfStack([("", root)], faults)) == OfDirectory("", root, faults)
  {
    hide OfDirectory;
    assert [("", root)][..0] == [];
    Move(OfDirectory("", root, faults), NOTHING, NOTHING, NOTHING, NOTHING);
  }

  lemma StackIsEmpty(done: Found, stack: seq<(string, Node)>, faults: set<Call>)
    requires stack == []
    ensures done.Plus(OfStack(stack, faults)) == done
  {
    Move(done, NOTHING, NOTHING, NOTHING, NOTHING);
  }

  lemma EntriesEnd(done: Found, dir: string, node: Node, faults: set<Call>, stack: Found)
    requires node.Directory?
    ensures var rest, n := OfEntries(dir, node, |node.entries|, faults), |node.entries|;
      if Next(dir, n) in faults then !done.Plus(rest).Plus(stack).clean else done.Plus(rest).Plus(stack) == done.Plus(stack)
  {
    Move(done, NOTHING, NOTHING, NOTHING, NOTHING);
  }

  lemma PlusFound(done: Found, one: Found)
    ensures var all := done.Plus(one);
      && |all.files| == |done.files| + |one.files| && all.files == done.files + one.files
      && all.directories == done.directories + one.directories && all.bytes == done.bytes + one.bytes
      && all.unsupported == done.unsupported + one.unsupported && (all.clean <==> done.clean && one.clean)
  {
  }

  /** What the walk has done so far: `done` is counted and indexed, without a failure. */
  ghost predicate Walked(done: Found, summary: ScanSummary, seen: map<Path, Content>, view: Tables, started: Tables, device: DeviceId) {
    && done.clean
    && summary == ScanSummary(|done.files|, done.directories, done.bytes, done.unsupported, 0)
    && Covers(seen, done.files)
    && view == UpsertAll(started, seen, device)
  }

  lemma NothingWalked(started: Tables, device: DeviceId)
    ensures Walked(NOTHING, ScanSummary(0, 0, 0, 0, 0), map[], started, started, device)
  {
    hide UpsertAll;
    UpsertOneMore(started, map[], "", [], device);
  }

  lemma WalkedDirectory(done: Found, summary: ScanSummary, seen: map<Path, Content>, view: Tables, started: Tables, device: DeviceId)
    requires Walked(done, summary, seen, view, started, device)
    ensures Walked(done.Plus(Found(multiset{}, 1, 0, 0, true)), summary.(directories := summary.directories + 1),
                   seen, view, started, device)
    ensures done.Plus(Found(multiset{}, 1, 0, 0, true)).directories == done.directories + 1
  {
    hide UpsertAll;
    PlusFound(done, Found(multiset{}, 1, 0, 0, true));
  }

  lemma WalkedSpecial(done: Found, summary: ScanSummary, seen: map<Path, Content>, view: Tables, started: Tables, device: DeviceId)
    requires Walked(done, summary, seen, view, started, device)
    ensures Walked(done.Plus(Found(multiset{}, 0, 0, 1, true)), summary.(unsupported := summary.unsupported + 1),
                   seen, view, started, device)
    ensures done.Plus(Found(multiset{}, 0, 0, 1, true)).directories == done.directories
  {
    hide UpsertAll;
    PlusFound(done, Found(multiset{}, 0, 0, 1, true));
  }

  lemma WalkedFile(done: Found, summary: ScanSummary, seen: map<Path, Content>, view: Tables, started: Tables,
                   device: DeviceId, path: Path, content: Content)
    requires Walked(done, summary, seen, view, started, device)
    ensures Walked(done.Plus(Found(multiset{(path, content)}, 0, |content|, 0, true)),
                   summary.(files := summary.files + 1, bytes := summary.bytes + |content|),
                   seen[path := content], Upsert(view, path, Scanned(content, device)), started, device)
    ensures done.Plus(Found(multiset{(path, content)}, 0, |content|, 0, true)).directories == done.directories
  {
    hide UpsertAll, Upsert;
    PlusFound(done, Found(multiset{(path, content)}, 0, |content|, 0, true));
    UpsertOneMore(started, seen, path, content, device);
  }

  /** What one entry comes to, case by case. */
  lemma EntryCases(dir: string, e: Entry, faults: set<Call>)
    ensures e.name.None? ==> !OfEntry(dir, e, faults).clean
    ensures e.name.Some? ==> var raw := Below(dir, e.name.value);
      && (IsMetadata(raw) ==> OfEntry(dir, e, faults) == NOTHING)
      && (!IsMetadata(raw) && (RelativePaths.Parse(raw).Err? || Stat(raw) in faults) ==> !OfEntry(dir, e, faults).clean)
      && (!IsMetadata(raw) && RelativePaths.Parse(raw).Ok? && Stat(raw) !in faults ==>
            match e.node
            case Directory(_) => OfEntry(dir, e, faults) == Found(multiset{}, 1, 0, 0, true).Plus(OfDirectory(raw, e.node, faults))
            case Special => OfEntry(dir, e, faults) == Found(multiset{}, 0, 0, 1, true)
            case Regular(content) =>
              if Read(raw) in faults then !OfEntry(dir, e, faults).clean
              else OfEntry(dir, e, faults)
                   == Found(multiset{(RelativePaths.Parse(raw).value, content)}, 0, |content|, 0, true))
  {
    hide RelativePaths.Parse, OfDirectory;
  }

  /** A failure anywhere in what is left: the walk as a whole is not clean, and what
      was indexed lies in the folder. */
  lemma Aborts(done: Found, rest: Found, summary: ScanSummary, seen: map<Path, Content>, view: Tables, started: Tables, device: DeviceId)
    requires Walked(done, summary, seen, view, started, device)
    ensures Drawn(seen, done.Plus(rest).files) && view == UpsertAll(started, seen, device)
    ensures done.directories <= done.Plus(rest).directories
  {
    hide UpsertAll;
  }

  lemma StillDrawn(seen: map<Path, Content>, part: Found, rest: Found)
    requires Drawn(seen, part.files)
    ensures Drawn(seen, part.Plus(rest).files) && part.directories <= part.Plus(rest).directories
  {
  }

  lemma Completes(done: Found, summary: ScanSummary, seen: map<Path, Content>, view: Tables, started: Tables, device: DeviceId)
    requires Walked(done, summary, seen, view, started, device)
    ensures done.clean && Covers(seen, done.files) && view == UpsertAll(started, seen, device)
    ensures summary == ScanSummary(|done.files|, done.directories, done.bytes, done.unsupported, 0)
  {
  }

  /** Walks the tree with an explicit stack, indexing every file it can read. It ends
      without error exactly when none of its calls fails and every path parses; then
      it has seen every file, counted everything once, and left the index of a
      complete scan. On an error it leaves what it had indexed so far. */
  method ScanInto(root: Node, faults: set<Call>, db: StateDatabase, device: DeviceId)
      returns (r: Result<ScanSummary, ScanError>, ghost seen: map<Path, Content>)
    requires root.Directory?
    modifies db
    ensures r.Ok? <==> OfDirectory("", root, faults).clean
    ensures r.Ok? ==> var all := OfDirectory("", root, faults);
      && Covers(seen, all.files) && db.View() == ScanTables(old(db.View()), seen, device)
      && r.value == ScanSummary(|all.files|, all.directories, all.bytes, all.unsupported,
                                |InState(db.files, db.files.Keys, UnsynchronizedLocalMissing)|)
    ensures r.Err? ==>
      Drawn(seen, OfDirectory("", root, faults).files) && db.View() == AbortedScan(old(db.View()), seen, device)
  {
    hide OfEntry, OfEntries, OfStack, OfDirectory, Found.Plus, UpsertAll, Upsert, RelativePaths.Parse, InState, Covers,
      Drawn, Walked, Below, IsMetadata, StateTables.MarkScanStarted, StateTables.FinalizeScan;
    ghost var all := OfDirectory("", root, faults);
    db.MarkScanStarted();
    ghost var started := db.View();
    seen := map[];
    NothingWalked(started, device);
    var summary := ScanSummary(0, 0, 0, 0, 0);
    var stack := [("", root)];
    ghost var done, popped := NOTHING, 0;
    StackOfOne(root, faults);
    while stack != []
      invariant Directories(stack) && done.Plus(OfStack(stack, faults)) == all
      invariant |stack| + popped == done.directories + 1
      invariant Walked(done, summary, seen, db.View(), started, device)
      decreases all.directories + 1 - popped
    {
      Aborts(done, OfStack(stack, faults), summary, seen, db.View(), started, device);
      PopDirectory(done, stack, faults, all);
      var (dir, node) := stack[|stack| - 1];
      stack := stack[..|stack| - 1];
      popped := popped + 1;
      if Open(dir) in faults {
        return Err(Filesystem), seen;
      }
      var entries := node.entries;
      for i := 0 to |entries|
        invariant Directories(stack)
        invariant done.Plus(OfEntries(dir, node, i, faults)).Plus(OfStack(stack, faults)) == all
        invariant |stack| + popped == done.directories + 1
        invariant Walked(done, summary, seen, db.View(), started, device)
      {
        NextEntry(done, dir, node, i, faults, OfStack(stack, faults), all);
        EntryCases(dir, entries[i], faults);
        Aborts(done, OfEntries(dir, node, i, faults), summary, seen, db.View(), started, device);
        StillDrawn(seen, done.Plus(OfEntries(dir, node, i, faults)), OfStack(stack, faults));
        if Next(dir, i) in faults {
          return Err(Filesystem), seen;
        }
        if entries[i].name.None? {
          return Err(Filesystem), seen;
        }
        var raw := Below(dir, entries[i].name.value);
        if IsMetadata(raw) {
          Move(done, NOTHING, NOTHING, NOTHING, NOTHING);
          continue;
        }
        var relative := RelativePaths.ParseRelativePath(raw);
        if relative.Err? {
          return Err(BadPath(relative.error)), seen;
        }
        if Stat(raw) in faults {
          return Err(Filesystem), seen;
        }
        match entries[i].node
        case Directory(_) =>
          PushDirectory(done, raw, entries[i].node, OfEntries(dir, node, i + 1, faults), stack, faults);
          stack := stack + [(raw, entries[i].node)];
          WalkedDirectory(done, summary, seen, db.View(), started, device);
          summary := summary.(directories := summary.directories + 1);
          done := done.Plus(Found(multiset{}, 1, 0, 0, true));
        case Special =>
          WalkedSpecial(done, summary, seen, db.View(), started, device);
          summary := summary.(unsupported := summary.unsupported + 1);
          done := done.Plus(Found(multiset{}, 0, 0, 1, true));
        case Regular(content) =>
          if Read(raw) in faults {
            return Err(Filesystem), seen;
          }
          var path := relative.value;
          WalkedFile(done, summary, seen, db.View(), started, device, path, content);
          var _ := db.UpsertFile(path, FileEntry(File, |content|, Some(Blake3(content)), 1, device));
          summary := summary.(files := summary.files + 1, bytes := summary.bytes + |content|);
          done := done.Plus(Found(multiset{(path, content)}, 0, |content|, 0, true));
          seen := seen[path := content];
      }
      EntriesEnd(done, dir, node, faults, OfStack(stack, faults));
      Aborts(done, OfEntries(dir, node, |entries|, faults), summary, seen, db.View(), started, device);
      StillDrawn(seen, done.Plus(OfEntries(dir, node, |entries|, faults)), OfStack(stack, faults));
      if Next(dir, |entries|) in faults {
        return Err(Filesystem), seen;
      }
    }
    StackIsEmpty(done, stack, faults);
    Completes(done, summary, seen, db.View(), started, device);
    db.FinalizeScan();
    var missing := db.ListMissingAfterScan();
    r := Ok(summary.(missing := |missing|));
  }
}
