/** What a completed walk has found, said without the walk: the files of the tree by
    looking their names up one after the other
    (crates/syncer-core/src/scanner.rs:48-148; crates/syncer-core/src/state_db.rs:117-141). */
module ScanTrees {
  import opened Wrappers
  import opened Devices
  import opened Domain
  import opened StateTables
  import opened Scanner
  import opened Text
  import RelativePaths

  /** The entry called `name` among the entries from `i` on. */
  function Child(node: Node, name: string, i: nat): Option<Node>
    requires node.Directory? && i <= |node.entries|
    decreases |node.entries| - i
  {
    if i == |node.entries| then None
    else if node.entries[i].name == Some(name) then Some(node.entries[i].node)
    else Child(node, name, i + 1)
  }

  /** The node that a path of names leads to. */
  function Lookup(node: Node, names: seq<string>): Option<Node>
    decreases |names|
  {
    if names == [] then Some(node)
    else if !node.Directory? then None
    else
      match Child(node, names[0], 0)
      case None => None
      case Some(child) => Lookup(child, names[1..])
  }

  /** As a file system has them: component names, no name twice in a directory. A name
      that is not UTF-8 is one that no path of strings leads to. */
  ghost predicate NormalTree(node: Node, i: nat)
    requires node.Directory? ==> i <= |node.entries|
    decreases node, if node.Directory? then |node.entries| - i else 0
  {
    node.Directory? && i < |node.entries| ==>
      var e := node.entries[i];
      && (e.name.Some? ==>
            && RelativePaths.IsNormal(e.name.value) && '/' !in e.name.value
            && Child(node, e.name.value, i + 1).None?)
      && NormalTree(e.node, 0)
      && NormalTree(node, i + 1)
  }

  // ------------------------------------------------------------------
  // The files by the paths they have on disk
  // ------------------------------------------------------------------

  function RawEntry(dir: string, e: Entry): multiset<(string, Content)>
    decreases e, 0
  {
    if e.name.None? || IsMetadata(Below(dir, e.name.value)) then multiset{}
    else
      var raw := Below(dir, e.name.value);
      match e.node
      case Special => multiset{}
      case Regular(content) => multiset{(raw, content)}
      case Directory(_) => RawEntries(raw, e.node, 0)
  }

  function RawEntries(dir: string, node: Node, i: nat): multiset<(string, Content)>
    requires node.Directory? && i <= |node.entries|
    decreases node, |node.entries| - i + 1
  {
    if i == |node.entries| then multiset{} else RawEntry(dir, node.entries[i]) + RawEntries(dir, node, i + 1)
  }

  /** The file at `path` below the directory `above`, reached through its entries from `i` on. */
  ghost predicate IsFile(above: seq<string>, node: Node, i: nat, path: Path, content: Content)
    requires node.Directory? && i <= |node.entries|
  {
    var names := Split(path, '/');
    && |above| < |names| && names[..|above|] == above
    && names[0] != RelativePaths.SYNCER_DIR
    && var child := Child(node, names[|above|], i);
       child.Some? && Lookup(child.value, names[|above| + 1..]) == Some(Regular(content))
  }

  ghost predicate Names(above: seq<string>) {
    RelativePaths.AreNormal(above) && (above != [] ==> above[0] != RelativePaths.SYNCER_DIR)
  }

  lemma RawSplits(above: seq<string>, name: string)
    requires Names(above) && RelativePaths.IsNormal(name) && '/' !in name
    ensures var raw := Below(Join(above, '/'), name);
      && raw == Join(above + [name], '/') && Split(raw, '/') == above + [name]
      && (IsMetadata(raw) <==> (above + [name])[0] == RelativePaths.SYNCER_DIR)
  {
    hide Split;
    RelativePaths.JoinPush(above, name);
    if above != [] {
      RelativePaths.JoinStarts(above);
    }
    SplitOfJoin(above + [name], '/');
  }

  function Count(condition: bool): nat {
    if condition then 1 else 0
  }

  /** Each file of the tree occurs once, under the path it is looked up by, and
      nothing else does. */
  lemma {:induction false} EachFileOnce(above: seq<string>, node: Node, i: nat, path: Path, content: Content)
    requires node.Directory? && i <= |node.entries| && Names(above) && NormalTree(node, i)
    ensures RawEntries(Join(above, '/'), node, i)[(path, content)] == Count(IsFile(above, node, i, path, content))
    decreases node, |node.entries| - i
  {
    if i < |node.entries| {
      EachFileOnce(above, node, i + 1, path, content);
      EntryOnce(above, node, i, path, content);
    }
  }

  /** The file at `path` is `child`, called `name` in the directory `above`, or lies below it. */
  ghost predicate Hits(above: seq<string>, name: string, child: Node, path: Path, content: Content) {
    var names := Split(path, '/');
    && |above| < |names| && names[..|above|] == above && names[|above|] == name
    && names[0] != RelativePaths.SYNCER_DIR
    && Lookup(child, names[|above| + 1..]) == Some(Regular(content))
  }

  lemma FirstOrLater(above: seq<string>, node: Node, i: nat, path: Path, content: Content)
    requires node.Directory? && i < |node.entries| && node.entries[i].name.Some?
    requires Child(node, node.entries[i].name.value, i + 1).None?
    ensures Count(IsFile(above, node, i, path, content))
         == Count(Hits(above, node.entries[i].name.value, node.entries[i].node, path, content))
          + Count(IsFile(above, node, i + 1, path, content))
  {
    hide Split, Lookup;
  }

  lemma HitsRegular(above: seq<string>, name: string, c: Content, path: Path, content: Content)
    requires RelativePaths.IsNormal(name) && '/' !in name && Names(above)
    requires (above + [name])[0] != RelativePaths.SYNCER_DIR
    ensures Hits(above, name, Regular(c), path, content) <==> path == Join(above + [name], '/') && c == content
  {
    hide Split, Join;
    var below, names := above + [name], Split(path, '/');
    SplitOfJoin(below, '/');
    JoinOfSplit(path, '/');
    if Hits(above, name, Regular(c), path, content) {
      assert names[|above| + 1..] == [];
      assert names == below;
    }
  }

  lemma HitsDirectory(above: seq<string>, name: string, child: Node, path: Path, content: Content)
    requires child.Directory?
    ensures Hits(above, name, child, path, content) <==> IsFile(above + [name], child, 0, path, content)
  {
    hide Split;
    var names := Split(path, '/');
    if |above| < |names| {
      OneNameLonger(names, above, name);
      var rest := names[|above| + 1..];
      if rest != [] {
        assert rest[0] == names[|above| + 1] && rest[1..] == names[|above| + 2..];
      }
    }
  }

  lemma OneNameLonger(names: seq<string>, above: seq<string>, name: string)
    requires |above| < |names|
    ensures names[..|above| + 1] == above + [name] <==> names[..|above|] == above && names[|above|] == name
  {
    var n, below := |above|, above + [name];
    assert names[..n + 1] == names[..n] + [names[n]];
    assert below[..n] == above && below[n] == name;
  }

  lemma {:induction false} EntryOnce(above: seq<string>, node: Node, i: nat, path: Path, content: Content)
    requires node.Directory? && i < |node.entries| && Names(above) && NormalTree(node, i)
    ensures RawEntry(Join(above, '/'), node.entries[i])[(path, content)]
         == Count(IsFile(above, node, i, path, content)) - Count(IsFile(above, node, i + 1, path, content))
    decreases node, |node.entries| - i, 0
  {
    hide Split, Join, Hits, IsFile, Lookup, RawEntries, RelativePaths.IsNormal;
    var e := node.entries[i];
    if e.name.None? {
      NamelessIsNoFile(above, node, i, path, content);
      return;
    }
    var name := e.name.value;
    var raw := Below(Join(above, '/'), name);
    RawSplits(above, name);
    FirstOrLater(above, node, i, path, content);
    if IsMetadata(raw) {
      MetadataIsNoFile(above, name, e.node, path, content);
    } else {
      match e.node
      case Special =>
        SpecialIsNoFile(above, name, path, content);
      case Regular(c) =>
        HitsRegular(above, name, c, path, content);
      case Directory(_) =>
        HitsDirectory(above, name, e.node, path, content);
        EachFileOnce(above + [name], e.node, 0, path, content);
    }
  }

  lemma NamelessIsNoFile(above: seq<string>, node: Node, i: nat, path: Path, content: Content)
    requires node.Directory? && i < |node.entries| && node.entries[i].name.None?
    ensures IsFile(above, node, i, path, content) <==> IsFile(above, node, i + 1, path, content)
  {
    hide Split, Lookup;
  }

  lemma MetadataIsNoFile(above: seq<string>, name: string, child: Node, path: Path, content: Content)
    requires (above + [name])[0] == RelativePaths.SYNCER_DIR
    ensures !Hits(above, name, child, path, content)
  {
    hide Split, Lookup;
    var names := Split(path, '/');
    if |above| < |names| && names[..|above|] == above && names[|above|] == name {
      assert names[0] == (above + [name])[0];
    }
  }

  lemma SpecialIsNoFile(above: seq<string>, name: string, path: Path, content: Content)
    ensures !Hits(above, name, Special, path, content)
  {
  }

  /** `path` is a file of the folder below `root`, outside its metadata directory. */
  ghost predicate OnDisk(root: Node, path: Path, content: Content) {
    Split(path, '/')[0] != RelativePaths.SYNCER_DIR && Lookup(root, Split(path, '/')) == Some(Regular(content))
  }

  /** The folder below `root` as a flat map from paths to contents. */
  ghost predicate IsDisk(disk: map<Path, Content>, root: Node) {
    forall path, content :: (path in disk && disk[path] == content) <==> OnDisk(root, path, content)
  }

  function RawFiles(root: Node): multiset<(string, Content)>
    requires root.Directory?
  {
    RawEntries("", root, 0)
  }

  lemma RootOnce(root: Node, path: Path, content: Content)
    requires root.Directory? && NormalTree(root, 0)
    ensures RawFiles(root)[(path, content)] == Count(OnDisk(root, path, content))
  {
    hide Split, RawEntries;
    EachFileOnce([], root, 0, path, content);
    var names := Split(path, '/');
    assert names[..0] == [];
    assert Join([], '/') == "";
  }

  // ------------------------------------------------------------------
  // The files by the paths the walk gives them
  // ------------------------------------------------------------------

  ghost predicate HasSource(raws: multiset<(string, Content)>, path: Path, content: Content) {
    exists raw :: (raw, content) in raws && RelativePaths.Parse(raw) == Ok(path)
  }

  /** Every indexed file comes from one on disk whose path parses to it. */
  ghost predicate Sourced(raws: multiset<(string, Content)>, files: multiset<(Path, Content)>) {
    forall path, content :: (path, content) in files ==> HasSource(raws, path, content)
  }

  ghost predicate HasImage(raw: string, content: Content, files: multiset<(Path, Content)>) {
    RelativePaths.Parse(raw).Ok? && (RelativePaths.Parse(raw).value, content) in files
  }

  /** No file on disk is left out. */
  ghost predicate Imaged(raws: multiset<(string, Content)>, files: multiset<(Path, Content)>) {
    |files| == |raws| && forall raw, content :: (raw, content) in raws ==> HasImage(raw, content, files)
  }

  lemma SourcedPlus(r: multiset<(string, Content)>, f: multiset<(Path, Content)>,
                    r': multiset<(string, Content)>, f': multiset<(Path, Content)>)
    requires Sourced(r, f) && Sourced(r', f')
    ensures Sourced(r + r', f + f')
  {
    hide RelativePaths.Parse;
    forall path, content | (path, content) in f + f' ensures HasSource(r + r', path, content) {
      if (path, content) in f {
        var raw :| (raw, content) in r && RelativePaths.Parse(raw) == Ok(path);
        assert (raw, content) in r + r';
      } else {
        var raw :| (raw, content) in r' && RelativePaths.Parse(raw) == Ok(path);
        assert (raw, content) in r + r';
      }
    }
  }

  lemma ImagedPlus(r: multiset<(string, Content)>, f: multiset<(Path, Content)>,
                   r': multiset<(string, Content)>, f': multiset<(Path, Content)>)
    requires Imaged(r, f) && Imaged(r', f')
    ensures Imaged(r + r', f + f')
  {
    hide RelativePaths.Parse;
    forall raw, content | (raw, content) in r + r' ensures HasImage(raw, content, f + f') {
      assert (raw, content) in r ==> HasImage(raw, content, f);
      assert (raw, content) in r' ==> HasImage(raw, content, f');
    }
  }

  /** Whatever the walk indexes is on disk; and without a failure it leaves nothing out. */
  lemma {:induction false} WalkParses(dir: string, node: Node, i: nat, faults: set<Call>)
    requires node.Directory? && i <= |node.entries|
    ensures var found := OfEntries(dir, node, i, faults);
      Sourced(RawEntries(dir, node, i), found.files) && (found.clean ==> Imaged(RawEntries(dir, node, i), found.files))
    decreases node, |node.entries| - i + 1
  {
    hide RelativePaths.Parse, OfEntry, RawEntry, Sourced, Imaged;
    if i == |node.entries| {
      NothingParses();
    } else {
      var e := node.entries[i];
      EntryParses(dir, e, faults);
      WalkParses(dir, node, i + 1, faults);
      var one, rest := OfEntry(dir, e, faults), OfEntries(dir, node, i + 1, faults);
      assert OfEntries(dir, node, i, faults).files == one.files + rest.files;
      SourcedPlus(RawEntry(dir, e), one.files, RawEntries(dir, node, i + 1), rest.files);
      if OfEntries(dir, node, i, faults).clean {
        ImagedPlus(RawEntry(dir, e), one.files, RawEntries(dir, node, i + 1), rest.files);
      }
    }
  }

  lemma NothingParses()
    ensures Sourced(multiset{}, multiset{}) && Imaged(multiset{}, multiset{})
  {
    hide RelativePaths.Parse;
  }

  lemma FileParses(raw: string, content: Content, path: Path)
    requires RelativePaths.Parse(raw) == Ok(path)
    ensures Sourced(multiset{(raw, content)}, multiset{(path, content)})
    ensures Imaged(multiset{(raw, content)}, multiset{(path, content)})
  {
    hide RelativePaths.Parse;
    assert (raw, content) in multiset{(raw, content)};
  }

  lemma Unindexed(raws: multiset<(string, Content)>)
    ensures Sourced(raws, multiset{})
  {
    hide RelativePaths.Parse;
  }

  lemma {:induction false} EntryParses(dir: string, e: Entry, faults: set<Call>)
    ensures var found := OfEntry(dir, e, faults);
      Sourced(RawEntry(dir, e), found.files) && (found.clean ==> Imaged(RawEntry(dir, e), found.files))
    decreases e, 0
  {
    hide RelativePaths.Parse, OfEntries, RawEntries, Below, IsMetadata, Sourced, Imaged;
    NothingParses();
    Unindexed(RawEntry(dir, e));
    if e.name.Some? {
      var raw := Below(dir, e.name.value);
      var path := RelativePaths.Parse(raw);
      if path.Ok? && e.node.Directory? {
        WalkParses(raw, e.node, 0, faults);
        var inner := OfDirectory(raw, e.node, faults);
        assert multiset{} + inner.files == inner.files;
      } else if path.Ok? && e.node.Regular? {
        FileParses(raw, e.node.content, path.value);
      }
    }
  }

  // ------------------------------------------------------------------
  // When the index is that of the disk
  // ------------------------------------------------------------------

  /** No file outside the metadata directory has white space at the ends of its path. */
  ghost predicate TidyFiles(root: Node) {
    forall path, content :: OnDisk(root, path, content) ==> Tidy(path)
  }

  lemma {:induction false} NamesAreNormal(node: Node, names: seq<string>)
    requires NormalTree(node, 0) && Lookup(node, names).Some?
    ensures forall i :: 0 <= i < |names| ==> RelativePaths.IsNormal(names[i]) && '/' !in names[i]
    decreases |names|
  {
    if names != [] {
      var child := ChildIsNormal(node, names[0], 0);
      NamesAreNormal(child, names[1..]);
      assert names == [names[0]] + names[1..];
    }
  }

  lemma {:induction false} ChildIsNormal(node: Node, name: string, i: nat) returns (child: Node)
    requires node.Directory? && i <= |node.entries| && NormalTree(node, i) && Child(node, name, i).Some?
    ensures Child(node, name, i) == Some(child) && NormalTree(child, 0)
    ensures RelativePaths.IsNormal(name) && '/' !in name
    decreases |node.entries| - i
  {
    if node.entries[i].name == Some(name) {
      child := node.entries[i].node;
    } else {
      child := ChildIsNormal(node, name, i + 1);
    }
  }

  /** A file of the folder has a canonical path, which is plain exactly when it is tidy. */
  lemma FilesAreCanonical(root: Node, path: Path, content: Content)
    requires root.Directory? && NormalTree(root, 0) && OnDisk(root, path, content)
    ensures RelativePaths.Canonical(path) && (RelativePaths.Plain(path) <==> Tidy(path))
  {
    hide Split, Lookup, RelativePaths.Parse, Tidy;
    var names := Split(path, '/');
    NamesAreNormal(root, names);
    JoinOfSplit(path, '/');
    assert RelativePaths.MadeOf(path, names);
    RelativePaths.CanonicalParsesToItself(path);
  }

  lemma {:induction false} LengthBound(raws: multiset<(string, Content)>) returns (bound: nat)
    ensures forall f :: f in raws ==> |f.0| <= bound
    decreases |raws|
  {
    if raws == multiset{} {
      bound := 0;
    } else {
      var f :| f in raws;
      var rest := LengthBound(raws - multiset{f});
      bound := Max(rest, |f.0|);
      forall g | g in raws ensures |g.0| <= bound {
        if g != f {
          assert g in raws - multiset{f};
        }
      }
    }
  }

  /** Where the index is that of the disk, an untidy path is the trimmed form of a
      longer untidy one; so there is none. */
  lemma {:induction false} NoUntidyFile(root: Node, faults: set<Call>, seen: map<Path, Content>, path: Path, content: Content, bound: nat)
    requires root.Directory? && NormalTree(root, 0) && OfDirectory("", root, faults).clean
    requires Covers(seen, OfDirectory("", root, faults).files) && IsDisk(seen, root)
    requires OnDisk(root, path, content) && forall f :: f in RawFiles(root) ==> |f.0| <= bound
    ensures Tidy(path)
    decreases bound + 1 - |path|
  {
    hide OfEntries, OnDisk, RawEntries, RelativePaths.Parse, Tidy, Trim;
    RootOnce(root, path, content);
    if !Tidy(path) {
      WalkParses("", root, 0, faults);
      assert path in seen && seen[path] == content;
      assert HasSource(RawFiles(root), path, content);
      var raw :| (raw, content) in RawFiles(root) && RelativePaths.Parse(raw) == Ok(path);
      RootOnce(root, raw, content);
      FilesAreCanonical(root, raw, content);
      FilesAreCanonical(root, path, content);
      RelativePaths.ParsedIsNoLonger(raw);
      TrimKeepsTidy(raw);
      if !Tidy(raw) {
        NoUntidyFile(root, faults, seen, raw, content, bound);
      }
    }
  }

  /** What a completed walk has seen is exactly the folder if and only if no file has
      white space at the ends of its path. */
  lemma CompleteWalkSeesTheDisk(root: Node, faults: set<Call>, seen: map<Path, Content>)
    requires root.Directory? && NormalTree(root, 0)
    requires OfDirectory("", root, faults).clean && Covers(seen, OfDirectory("", root, faults).files)
    ensures IsDisk(seen, root) <==> TidyFiles(root)
    ensures TidyFiles(root) ==> |OfDirectory("", root, faults).files| == |seen|
  {
    hide OfDirectory, OnDisk, RawFiles, Tidy;
    if TidyFiles(root) {
      TidyWalkSeesTheDisk(root, faults, seen);
    } else if IsDisk(seen, root) {
      var bound := LengthBound(RawFiles(root));
      forall path, content | OnDisk(root, path, content) ensures Tidy(path) {
        NoUntidyFile(root, faults, seen, path, content, bound);
      }
    }
  }

  lemma TidyWalkSeesTheDisk(root: Node, faults: set<Call>, seen: map<Path, Content>)
    requires root.Directory? && NormalTree(root, 0) && TidyFiles(root)
    requires OfDirectory("", root, faults).clean && Covers(seen, OfDirectory("", root, faults).files)
    ensures IsDisk(seen, root) && |OfDirectory("", root, faults).files| == |seen|
  {
    hide OfDirectory, OnDisk, RawFiles, Tidy;
    var files, raws := OfDirectory("", root, faults).files, RawFiles(root);
    forall path, content ensures (path in seen && seen[path] == content) <==> OnDisk(root, path, content) {
      TidyWalkFinds(root, faults, path, content);
      if path in seen {
        TidyWalkFinds(root, faults, path, seen[path]);
      }
      if OnDisk(root, path, content) {
        var f := (path, content);
        assert f.0 in seen;
        OneContent(root, path, content, seen[path]);
      }
    }
    forall path, content ensures raws[(path, content)] == Count(path in seen && seen[path] == content) {
      RootOnce(root, path, content);
    }
    CountOfMap(seen, raws);
    TidyWalkCounts(root, faults);
  }

  lemma TidyWalkCounts(root: Node, faults: set<Call>)
    requires root.Directory? && OfDirectory("", root, faults).clean
    ensures |OfDirectory("", root, faults).files| == |RawFiles(root)|
  {
    hide OfEntries, RawEntries, HasImage, Sourced;
    WalkParses("", root, 0, faults);
  }

  lemma TidyWalkFinds(root: Node, faults: set<Call>, path: Path, content: Content)
    requires root.Directory? && NormalTree(root, 0) && TidyFiles(root) && OfDirectory("", root, faults).clean
    ensures (path, content) in OfDirectory("", root, faults).files <==> OnDisk(root, path, content)
  {
    hide OfEntries, OnDisk, RawEntries, RelativePaths.Parse, Tidy;
    WalkParses("", root, 0, faults);
    RootOnce(root, path, content);
    if (path, content) in OfDirectory("", root, faults).files {
      assert HasSource(RawFiles(root), path, content);
      var raw :| (raw, content) in RawFiles(root) && RelativePaths.Parse(raw) == Ok(path);
      RootOnce(root, raw, content);
      FilesAreCanonical(root, raw, content);
    }
    if OnDisk(root, path, content) {
      FilesAreCanonical(root, path, content);
      assert HasImage(path, content, OfDirectory("", root, faults).files);
    }
  }

  lemma OneContent(root: Node, path: Path, content: Content, other: Content)
    requires OnDisk(root, path, content) && OnDisk(root, path, other)
    ensures content == other
  {
  }

  lemma {:induction false} CountOfMap(seen: map<Path, Content>, files: multiset<(Path, Content)>)
    requires forall path, content :: files[(path, content)] == Count(path in seen && seen[path] == content)
    ensures |files| == |seen|
    decreases |seen|
  {
    if seen == map[] {
      assert forall f :: files[f] == 0 by {
        forall f ensures files[f] == 0 {
          assert files[(f.0, f.1)] == 0;
        }
      }
      assert files == multiset{};
    } else {
      var p :| p in seen;
      var rest, one := seen - {p}, multiset{(p, seen[p])};
      assert files[(p, seen[p])] == 1;
      forall path, content ensures (files - one)[(path, content)] == Count(path in rest && rest[path] == content) {
        assert files[(path, content)] == Count(path in seen && seen[path] == content);
      }
      CountOfMap(rest, files - one);
      assert files == (files - one) + one;
    }
  }

  /** A file called "a " is indexed as "a", where there is none. */
  lemma UntidyNameIsMisindexed(content: Content)
    ensures var root, seen := Node.Directory([Entry(Some("a "), Regular(content))]), map["a" := content];
      && NormalTree(root, 0) && OfDirectory("", root, {}).clean && Covers(seen, OfDirectory("", root, {}).files)
      && OnDisk(root, "a ", content) && !IsDisk(seen, root)
  {
    hide Split, OfDirectory, Lookup;
    var root, seen := Node.Directory([Entry(Some("a "), Regular(content))]), map["a" := content];
    UntidyTree(content);
    UntidyFound(content);
    assert !("a " in seen);
  }

  lemma UntidyTree(content: Content)
    ensures var root := Node.Directory([Entry(Some("a "), Regular(content))]);
      NormalTree(root, 0) && OnDisk(root, "a ", content)
  {
    var root := Node.Directory([Entry(Some("a "), Regular(content))]);
    SplitPart("a ", '/');
    assert Child(root, "a ", 1).None?;
    var names := ["a "];
    assert names[1..] == [];
    hide Split;
  }

  lemma UntidyFound(content: Content)
    ensures var found := OfDirectory("", Node.Directory([Entry(Some("a "), Regular(content))]), {});
      found.clean && found.files == multiset{("a", content)}
  {
    var root := Node.Directory([Entry(Some("a "), Regular(content))]);
    SplitPart("a ", '/');
    SpaceIsTrimmed();
    hide Split, RelativePaths.Parse;
    assert OfEntry("", root.entries[0], {}) == Found(multiset{("a", content)}, 0, |content|, 0, true);
    assert OfEntries("", root, 1, {}) == NOTHING;
  }

  lemma SpaceIsTrimmed()
    ensures RelativePaths.Parse("a ") == Ok("a") && RelativePaths.Parse(" ").Err?
  {
    assert Trim("a ") == "a" by {
      assert TrimStart("a ") == "a " && "a "[..1] == "a" && TrimEnd("a") == "a";
    }
    assert Trim(" ") == "" by {
      assert " "[1..] == "";
    }
    hide Trim;
    SplitPart("a", '/');
    assert RelativePaths.Normals(["a"], 1) == ["a"];
  }

  /** The folder that `root` describes, as a device holds it: every name is plain, and
      a completed walk leaves the index of the device's scan. */
  lemma WalkIsScan(d: Device, root: Node, faults: set<Call>, seen: map<Path, Content>)
    requires root.Directory? && NormalTree(root, 0) && TidyFiles(root) && IsDisk(d.disk, root)
    requires OfDirectory("", root, faults).clean && Covers(seen, OfDirectory("", root, faults).files)
    ensures ScanTables(d.tables, seen, d.id) == Scan(d).tables
    ensures forall p :: p in d.disk ==> RelativePaths.Plain(p)
  {
    hide OfDirectory, OnDisk, TidyFiles, RelativePaths.Plain;
    CompleteWalkSeesTheDisk(root, faults, seen);
    SameDisk(d.disk, seen, root);
    forall p | p in d.disk ensures RelativePaths.Plain(p) {
      assert OnDisk(root, p, d.disk[p]);
      TidyAt(root, p, d.disk[p]);
      FilesAreCanonical(root, p, d.disk[p]);
    }
  }

  lemma SameDisk(a: map<Path, Content>, b: map<Path, Content>, root: Node)
    requires IsDisk(a, root) && IsDisk(b, root)
    ensures a == b
  {
    hide OnDisk;
    forall p ensures (p in a <==> p in b) && (p in a ==> a[p] == b[p]) {
      if p in a {
        assert OnDisk(root, p, a[p]);
      }
      if p in b {
        assert OnDisk(root, p, b[p]);
      }
    }
  }

  lemma TidyAt(root: Node, path: Path, content: Content)
    requires TidyFiles(root) && OnDisk(root, path, content)
    ensures Tidy(path)
  {
  }

  /** A walk that stopped with an error leaves no trace in the index once a walk of the
      same folder completes, whichever calls failed. */
  lemma AbortedWalkIsRepaired(t: Tables, root: Node, faults: set<Call>, later: set<Call>,
                              partial: map<Path, Content>, seen: map<Path, Content>, device: DeviceId)
    requires root.Directory?
    requires Drawn(partial, OfDirectory("", root, faults).files) && Covers(seen, OfDirectory("", root, later).files)
    ensures ScanTables(AbortedScan(t, partial, device), seen, device) == ScanTables(t, seen, device)
  {
    hide ScanTables, AbortedScan, OfDirectory;
    SameFiles("", root, faults, later);
    forall p | p in partial ensures p in seen {
      assert (p, partial[p]) in OfDirectory("", root, later).files;
    }
    AbortedScanIsRepaired(t, partial, seen, device);
  }

  lemma {:induction false} DrawnIsOnDisk(root: Node, faults: set<Call>, seen: map<Path, Content>, path: Path)
    requires root.Directory? && NormalTree(root, 0) && TidyFiles(root)
    requires Drawn(seen, OfDirectory("", root, faults).files) && path in seen
    ensures OnDisk(root, path, seen[path])
  {
    hide OfEntries, OnDisk, RawEntries, RelativePaths.Parse, Tidy;
    WalkParses("", root, 0, faults);
    assert HasSource(RawFiles(root), path, seen[path]);
    var raw :| (raw, seen[path]) in RawFiles(root) && RelativePaths.Parse(raw) == Ok(path);
    RootOnce(root, raw, seen[path]);
    FilesAreCanonical(root, raw, seen[path]);
  }

  /** On the device's side: after a failed walk the next scan gives what it would have
      given without it. */
  lemma FailedWalkIsRepaired(d: Device, root: Node, faults: set<Call>, partial: map<Path, Content>)
    requires root.Directory? && NormalTree(root, 0) && TidyFiles(root) && IsDisk(d.disk, root)
    requires Drawn(partial, OfDirectory("", root, faults).files)
    ensures Scan(d.(tables := AbortedScan(d.tables, partial, d.id))) == Scan(d)
  {
    hide ScanTables, AbortedScan, OfDirectory, OnDisk, TidyFiles, NormalTree;
    forall p | p in partial ensures p in d.disk {
      DrawnIsOnDisk(root, faults, partial, p);
      assert OnDisk(root, p, partial[p]);
    }
    AbortedScanIsRepaired(d.tables, partial, d.disk, d.id);
  }

  lemma {:induction false} SameFiles(dir: string, node: Node, faults: set<Call>, later: set<Call>)
    requires node.Directory?
    ensures OfDirectory(dir, node, faults).files == OfDirectory(dir, node, later).files
    decreases node, |node.entries| + 1
  {
    SameFilesFrom(dir, node, 0, faults, later);
  }

  lemma {:induction false} SameFilesFrom(dir: string, node: Node, i: nat, faults: set<Call>, later: set<Call>)
    requires node.Directory? && i <= |node.entries|
    ensures OfEntries(dir, node, i, faults).files == OfEntries(dir, node, i, later).files
    decreases node, |node.entries| - i
  {
    hide OfEntry;
    if i < |node.entries| {
      SameFilesFrom(dir, node, i + 1, faults, later);
      SameFilesOfEntry(dir, node.entries[i], faults, later);
    }
  }

  lemma {:induction false} SameFilesOfEntry(dir: string, e: Entry, faults: set<Call>, later: set<Call>)
    ensures OfEntry(dir, e, faults).files == OfEntry(dir, e, later).files
    decreases e, 0
  {
    hide RelativePaths.Parse, OfDirectory, Below, IsMetadata;
    if e.name.Some? && e.node.Directory? {
      SameFiles(Below(dir, e.name.value), e.node, faults, later);
    }
  }
}
