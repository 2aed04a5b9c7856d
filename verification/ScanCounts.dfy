/** What a completed walk reports: the directories, the other entries and the bytes of the
    folder (crates/syncer-core/src/scanner.rs:60-148). */
module ScanCounts {
  import opened Wrappers
  import opened Domain
  import opened Scanner
  import opened ScanTrees
  import opened Text
  import RelativePaths
  import Sums

  // ------------------------------------------------------------------
  // Directories and special entries
  // ------------------------------------------------------------------

  /** The node is a directory, or, for `dirs` false, neither that nor a file. */
  predicate IsOf(dirs: bool, node: Node) {
    !node.Regular? && node.Directory? == dirs
  }

  /** The paths of such nodes below `dir`, as the walk meets them. */
  function RawOther(dir: string, e: Entry, dirs: bool): multiset<string>
    decreases e, 0
  {
    if e.name.None? || IsMetadata(Below(dir, e.name.value)) then multiset{}
    else
      var raw := Below(dir, e.name.value);
      (if IsOf(dirs, e.node) then multiset{raw} else multiset{})
      + (if e.node.Directory? then RawOthers(raw, e.node, 0, dirs) else multiset{})
  }

  function RawOthers(dir: string, node: Node, i: nat, dirs: bool): multiset<string>
    requires node.Directory? && i <= |node.entries|
    decreases node, |node.entries| - i + 1
  {
    if i == |node.entries| then multiset{} else RawOther(dir, node.entries[i], dirs) + RawOthers(dir, node, i + 1, dirs)
  }

  /** A completed walk has counted each of them. */
  lemma {:induction false} WalkCounts(dir: string, node: Node, i: nat, faults: set<Call>)
    requires node.Directory? && i <= |node.entries| && OfEntries(dir, node, i, faults).clean
    ensures OfEntries(dir, node, i, faults).directories == |RawOthers(dir, node, i, true)|
    ensures OfEntries(dir, node, i, faults).unsupported == |RawOthers(dir, node, i, false)|
    decreases node, |node.entries| - i + 1
  {
    hide OfEntry, RawOther;
    if i < |node.entries| {
      EntryCounts(dir, node.entries[i], faults);
      WalkCounts(dir, node, i + 1, faults);
    }
  }

  lemma {:induction false} EntryCounts(dir: string, e: Entry, faults: set<Call>)
    requires OfEntry(dir, e, faults).clean
    ensures OfEntry(dir, e, faults).directories == |RawOther(dir, e, true)|
    ensures OfEntry(dir, e, faults).unsupported == |RawOther(dir, e, false)|
    decreases e, 0
  {
    hide RelativePaths.Parse, OfEntries, RawOthers, Below, IsMetadata;
    if e.name.Some? && !IsMetadata(Below(dir, e.name.value)) && e.node.Directory? {
      WalkCounts(Below(dir, e.name.value), e.node, 0, faults);
    }
  }

  /** The node at `path` below the directory `above`, reached through its entries from `i` on. */
  ghost predicate IsThere(above: seq<string>, node: Node, i: nat, path: string, dirs: bool)
    requires node.Directory? && i <= |node.entries|
  {
    var names := Split(path, '/');
    && |above| < |names| && names[..|above|] == above && names[0] != RelativePaths.SYNCER_DIR
    && var child := Child(node, names[|above|], i);
       child.Some? && IsOfSome(dirs, Lookup(child.value, names[|above| + 1..]))
  }

  predicate IsOfSome(dirs: bool, node: Option<Node>) {
    node.Some? && IsOf(dirs, node.value)
  }

  /** It is `child`, called `name` in the directory `above`, or lies below it. */
  ghost predicate Meets(above: seq<string>, name: string, child: Node, path: string, dirs: bool) {
    var names := Split(path, '/');
    && |above| < |names| && names[..|above|] == above && names[|above|] == name && names[0] != RelativePaths.SYNCER_DIR
    && IsOfSome(dirs, Lookup(child, names[|above| + 1..]))
  }

  lemma FirstOrLater(above: seq<string>, node: Node, i: nat, path: string, dirs: bool)
    requires node.Directory? && i < |node.entries|
    requires node.entries[i].name.Some? ==> Child(node, node.entries[i].name.value, i + 1).None?
    ensures node.entries[i].name.Some? ==>
      Count(IsThere(above, node, i, path, dirs))
      == Count(Meets(above, node.entries[i].name.value, node.entries[i].node, path, dirs))
         + Count(IsThere(above, node, i + 1, path, dirs))
    ensures node.entries[i].name.None? ==> IsThere(above, node, i, path, dirs) == IsThere(above, node, i + 1, path, dirs)
  {
    hide Split, Lookup, IsOfSome;
  }

  lemma MeetsItself(above: seq<string>, name: string, child: Node, path: string, dirs: bool)
    requires RelativePaths.IsNormal(name) && '/' !in name && Names(above)
    requires (above + [name])[0] != RelativePaths.SYNCER_DIR
    ensures path == Join(above + [name], '/') ==> (Meets(above, name, child, path, dirs) <==> IsOf(dirs, child))
    ensures path != Join(above + [name], '/') ==>
      (Meets(above, name, child, path, dirs) <==> child.Directory? && IsThere(above + [name], child, 0, path, dirs))
    ensures path == Join(above + [name], '/') && child.Directory? ==> !IsThere(above + [name], child, 0, path, dirs)
  {
    hide Split, Join, IsOf;
    var below, names := above + [name], Split(path, '/');
    SplitOfJoin(below, '/');
    JoinOfSplit(path, '/');
    if |above| < |names| {
      OneNameLonger(names, above, name);
      var rest := names[|above| + 1..];
      if rest == [] {
        assert names[..|above| + 1] == names;
      } else {
        assert rest[0] == names[|above| + 1] && rest[1..] == names[|above| + 2..];
      }
    }
  }

  lemma {:induction false} EachOnce(above: seq<string>, node: Node, i: nat, path: string, dirs: bool)
    requires node.Directory? && i <= |node.entries| && Names(above) && NormalTree(node, i)
    ensures RawOthers(Join(above, '/'), node, i, dirs)[path] == Count(IsThere(above, node, i, path, dirs))
    decreases node, |node.entries| - i
  {
    if i < |node.entries| {
      EachOnce(above, node, i + 1, path, dirs);
      EntryOnce(above, node, i, path, dirs);
    }
  }

  lemma {:induction false} EntryOnce(above: seq<string>, node: Node, i: nat, path: string, dirs: bool)
    requires node.Directory? && i < |node.entries| && Names(above) && NormalTree(node, i)
    ensures RawOther(Join(above, '/'), node.entries[i], dirs)[path]
         == Count(IsThere(above, node, i, path, dirs)) - Count(IsThere(above, node, i + 1, path, dirs))
    decreases node, |node.entries| - i, 0
  {
    hide Split, Join, Meets, IsThere, Lookup, RawOthers, RelativePaths.IsNormal, IsOf;
    var e := node.entries[i];
    FirstOrLater(above, node, i, path, dirs);
    if e.name.Some? {
      var name := e.name.value;
      RawSplits(above, name);
      if IsMetadata(Join(above + [name], '/')) {
        MetadataIsNotMet(above, name, e.node, path, dirs);
      } else {
        MeetsItself(above, name, e.node, path, dirs);
        if e.node.Directory? {
          EachOnce(above + [name], e.node, 0, path, dirs);
        }
      }
    }
  }

  lemma MetadataIsNotMet(above: seq<string>, name: string, child: Node, path: string, dirs: bool)
    requires (above + [name])[0] == RelativePaths.SYNCER_DIR
    ensures !Meets(above, name, child, path, dirs)
  {
    hide Split, Lookup, IsOfSome;
    var names := Split(path, '/');
    if |above| < |names| && names[..|above|] == above && names[|above|] == name {
      assert names[0] == (above + [name])[0];
    }
  }

  /** There is such a node at `path` in the folder below `root`, outside its metadata directory. */
  ghost predicate InFolder(root: Node, path: string, dirs: bool) {
    Split(path, '/')[0] != RelativePaths.SYNCER_DIR && IsOfSome(dirs, Lookup(root, Split(path, '/')))
  }

  lemma RootOnce(root: Node, path: string, dirs: bool)
    requires root.Directory? && NormalTree(root, 0)
    ensures RawOthers("", root, 0, dirs)[path] == Count(InFolder(root, path, dirs))
  {
    hide Split, RawOthers, IsOf;
    EachOnce([], root, 0, path, dirs);
    assert Split(path, '/')[..0] == [];
    assert Join([], '/') == "";
  }

  /** These are the paths of all of them. */
  ghost predicate AreAll(paths: set<string>, root: Node, dirs: bool) {
    forall path :: path in paths <==> InFolder(root, path, dirs)
  }

  /** A completed walk reports as many directories, and as many entries that are neither a
      directory nor a file, as the folder has outside its metadata directory. */
  lemma CompletedWalkCounts(root: Node, faults: set<Call>, paths: set<string>, dirs: bool)
    requires root.Directory? && NormalTree(root, 0) && OfDirectory("", root, faults).clean
    requires AreAll(paths, root, dirs)
    ensures |paths| == if dirs then OfDirectory("", root, faults).directories else OfDirectory("", root, faults).unsupported
  {
    hide OfEntries, RawOthers, InFolder, NormalTree;
    WalkCounts("", root, 0, faults);
    var raws := RawOthers("", root, 0, dirs);
    forall path: string ensures raws[path] == multiset(paths)[path] {
      RootOnce(root, path, dirs);
    }
    assert raws == multiset(paths);
  }

  // ------------------------------------------------------------------
  // Bytes
  // ------------------------------------------------------------------

  ghost function Weight(files: multiset<(Path, Content)>): nat
    decreases |files|
  {
    if files == multiset{} then 0
    else
      var f :| f in files;
      |f.1| + Weight(files - multiset{f})
  }

  lemma {:induction false} WeightWithout(files: multiset<(Path, Content)>, f: (Path, Content))
    requires f in files
    ensures Weight(files) == |f.1| + Weight(files - multiset{f})
    decreases |files|
  {
    var g :| g in files && Weight(files) == |g.1| + Weight(files - multiset{g});
    if g != f {
      WeightWithout(files - multiset{g}, f);
      WeightWithout(files - multiset{f}, g);
      assert files - multiset{g} - multiset{f} == files - multiset{f} - multiset{g};
    }
  }

  lemma {:induction false} WeightPlus(a: multiset<(Path, Content)>, b: multiset<(Path, Content)>)
    ensures Weight(a + b) == Weight(a) + Weight(b)
    decreases |a|
  {
    if a == multiset{} {
      assert a + b == b;
    } else {
      var f :| f in a;
      WeightWithout(a, f);
      WeightWithout(a + b, f);
      assert a + b - multiset{f} == (a - multiset{f}) + b;
      WeightPlus(a - multiset{f}, b);
    }
  }

  lemma WeightOfOne(f: (Path, Content))
    ensures Weight(multiset{f}) == |f.1| && Weight(multiset{}) == 0
  {
    WeightWithout(multiset{f}, f);
    assert multiset{f} - multiset{f} == multiset{};
  }

  lemma {:induction false} BytesOfEntries(dir: string, node: Node, i: nat, faults: set<Call>)
    requires node.Directory? && i <= |node.entries|
    ensures OfEntries(dir, node, i, faults).bytes == Weight(OfEntries(dir, node, i, faults).files)
    decreases node, |node.entries| - i + 1
  {
    hide OfEntry, Weight;
    WeightOfOne(("", []));
    if i < |node.entries| {
      BytesOfEntry(dir, node.entries[i], faults);
      BytesOfEntries(dir, node, i + 1, faults);
      WeightPlus(OfEntry(dir, node.entries[i], faults).files, OfEntries(dir, node, i + 1, faults).files);
      assert OfEntries(dir, node, i, faults).files
          == OfEntry(dir, node.entries[i], faults).files + OfEntries(dir, node, i + 1, faults).files;
    }
  }

  lemma {:induction false} BytesOfEntry(dir: string, e: Entry, faults: set<Call>)
    ensures OfEntry(dir, e, faults).bytes == Weight(OfEntry(dir, e, faults).files)
    decreases e, 0
  {
    hide RelativePaths.Parse, OfEntries, Below, IsMetadata, Weight;
    WeightOfOne(("", []));
    if e.name.Some? && !IsMetadata(Below(dir, e.name.value)) && RelativePaths.Parse(Below(dir, e.name.value)).Ok? {
      match e.node
      case Regular(content) => WeightOfOne((RelativePaths.Parse(Below(dir, e.name.value)).value, content));
      case Directory(_) =>
        BytesOfEntries(Below(dir, e.name.value), e.node, 0, faults);
        var inner := OfDirectory(Below(dir, e.name.value), e.node, faults);
        assert multiset{} + inner.files == inner.files;
      case Special =>
    }
  }

  function DiskSizes(disk: map<Path, Content>): map<Path, nat> {
    map p | p in disk :: |disk[p]|
  }

  lemma {:induction false} WeightOfDisk(disk: map<Path, Content>, files: multiset<(Path, Content)>)
    requires forall path, content :: files[(path, content)] == Count(path in disk && disk[path] == content)
    ensures Weight(files) == Sums.Sum(DiskSizes(disk))
    decreases |disk|
  {
    hide Weight, Sums.Sum;
    if disk == map[] {
      assert forall f :: files[f] == 0 by {
        forall f ensures files[f] == 0 {
          assert files[(f.0, f.1)] == 0;
        }
      }
      assert files == multiset{};
      WeightOfOne(("", []));
      NoSizes();
    } else {
      var p :| p in disk;
      var rest, one := disk - {p}, (p, disk[p]);
      assert files[(p, disk[p])] == 1;
      forall path, content ensures (files - multiset{one})[(path, content)] == Count(path in rest && rest[path] == content) {
        assert files[(path, content)] == Count(path in disk && disk[path] == content);
      }
      WeightOfDisk(rest, files - multiset{one});
      WeightWithout(files, one);
      Sums.SumWithout(DiskSizes(disk), p);
      assert DiskSizes(disk) - {p} == DiskSizes(rest);
    }
  }

  lemma NoSizes()
    ensures Sums.Sum(DiskSizes(map[])) == 0
  {
  }

  /** A completed walk over a folder with tidy file paths reports the sum of its file sizes. */
  lemma CompletedWalkWeighs(root: Node, faults: set<Call>, disk: map<Path, Content>)
    requires root.Directory? && NormalTree(root, 0) && TidyFiles(root) && IsDisk(disk, root)
    requires OfDirectory("", root, faults).clean
    ensures OfDirectory("", root, faults).bytes == Sums.Sum(DiskSizes(disk))
  {
    hide OfEntries, OnDisk, RawFiles, Tidy, Weight, NormalTree, Sums.Sum;
    var files, raws := OfDirectory("", root, faults).files, RawFiles(root);
    BytesOfEntries("", root, 0, faults);
    TidyWalkCounts(root, faults);
    forall path, content
      ensures raws[(path, content)] == Count(path in disk && disk[path] == content)
      ensures raws[(path, content)] <= files[(path, content)]
    {
      ScanTrees.RootOnce(root, path, content);
      TidyWalkFinds(root, faults, path, content);
    }
    forall f ensures raws[f] <= files[f] {
      assert raws[(f.0, f.1)] <= files[(f.0, f.1)];
    }
    assert files == raws + (files - raws);
    assert |files| == |raws| + |files - raws|;
    assert files - raws == multiset{};
    assert files == raws;
    WeightOfDisk(disk, raws);
  }
}
