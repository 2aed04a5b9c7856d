/** When a walk over a folder completes: its names decide, and the calls that fail
    (crates/syncer-core/src/scanner.rs:60-140; crates/syncer-core/src/manifest.rs:19-54). */
module ScanCompletion {
  import opened Wrappers
  import opened Domain
  import opened Scanner
  import opened ScanTrees
  import opened Text
  import RelativePaths

  // ------------------------------------------------------------------
  // The condition
  // ------------------------------------------------------------------

  /** Every entry from `i` on has a name in UTF-8. */
  predicate Named(node: Node, i: nat) {
    node.Directory? ==> forall j :: i <= j < |node.entries| ==> node.entries[j].name.Some?
  }

  /** What the walk asks of an entry: that its path parses, and, of a directory, that the
      names in it are UTF-8. */
  predicate IsGood(names: seq<string>, node: Node) {
    RelativePaths.Parse(Join(names, '/')).Ok? && Named(node, 0)
  }

  /** What lies at `names`, looked up among the entries from `i` on. */
  function At(node: Node, i: nat, names: seq<string>): Option<Node>
    requires node.Directory? && i <= |node.entries|
  {
    if names == [] then None
    else
      match Child(node, names[0], i)
      case None => None
      case Some(child) => Lookup(child, names[1..])
  }

  /** So is every entry from `i` on, and every one below them, outside the metadata directory. */
  ghost predicate AllGood(above: seq<string>, node: Node, i: nat)
    requires node.Directory? && i <= |node.entries|
  {
    forall names :: At(node, i, names).Some? && (above + names)[0] != RelativePaths.SYNCER_DIR ==>
      IsGood(above + names, At(node, i, names).value)
  }

  /** Every entry of the folder, be it a file, a directory or another thing, outside the
      metadata directory has a name in UTF-8 and a path that parses. */
  ghost predicate EntriesParse(root: Node) {
    && Named(root, 0)
    && forall names :: names != [] && names[0] != RelativePaths.SYNCER_DIR && Lookup(root, names).Some? ==>
         IsGood(names, Lookup(root, names).value)
  }

  // ------------------------------------------------------------------
  // Without failing calls
  // ------------------------------------------------------------------

  /** The entries below the one called `name`, itself included. */
  ghost predicate EntryGood(above: seq<string>, name: string, child: Node) {
    forall names :: Lookup(child, names).Some? && (above + [name])[0] != RelativePaths.SYNCER_DIR ==>
      IsGood(above + [name] + names, Lookup(child, names).value)
  }

  lemma FirstOrLater(above: seq<string>, node: Node, i: nat, name: string)
    requires node.Directory? && i < |node.entries| && node.entries[i].name == Some(name)
    requires Child(node, name, i + 1).None?
    ensures AllGood(above, node, i) <==> EntryGood(above, name, node.entries[i].node) && AllGood(above, node, i + 1)
  {
    hide IsGood, Lookup;
    var child := node.entries[i].node;
    if AllGood(above, node, i) {
      forall names | Lookup(child, names).Some? && (above + [name])[0] != RelativePaths.SYNCER_DIR
        ensures IsGood(above + [name] + names, Lookup(child, names).value)
      {
        var full := [name] + names;
        assert full[1..] == names && above + full == above + [name] + names;
        assert At(node, i, full) == Lookup(child, names);
      }
      forall names | At(node, i + 1, names).Some? && (above + names)[0] != RelativePaths.SYNCER_DIR
        ensures IsGood(above + names, At(node, i + 1, names).value)
      {
        assert At(node, i, names) == At(node, i + 1, names);
      }
    }
    if EntryGood(above, name, child) && AllGood(above, node, i + 1) {
      forall names | At(node, i, names).Some? && (above + names)[0] != RelativePaths.SYNCER_DIR
        ensures IsGood(above + names, At(node, i, names).value)
      {
        if names[0] == name {
          assert above + names == above + [name] + names[1..];
          assert At(node, i, names) == Lookup(child, names[1..]);
        } else {
          assert At(node, i, names) == At(node, i + 1, names);
        }
      }
    }
  }

  /** Nothing lies below a file. */
  lemma LeafGood(above: seq<string>, name: string, child: Node)
    requires !child.Directory? && (above + [name])[0] != RelativePaths.SYNCER_DIR
    ensures EntryGood(above, name, child) <==> RelativePaths.Parse(Join(above + [name], '/')).Ok?
  {
    hide RelativePaths.Parse, Join;
    var none: seq<string> := [];
    assert above + [name] + none == above + [name];
    assert Lookup(child, none).Some?;
    assert forall names :: Lookup(child, names).Some? ==> names == [];
  }

  lemma DirectoryGood(above: seq<string>, name: string, child: Node)
    requires child.Directory? && (above + [name])[0] != RelativePaths.SYNCER_DIR
    ensures EntryGood(above, name, child) <==>
      RelativePaths.Parse(Join(above + [name], '/')).Ok? && Named(child, 0) && AllGood(above + [name], child, 0)
  {
    hide RelativePaths.Parse, Join;
    var none: seq<string> := [];
    assert above + [name] + none == above + [name] && Lookup(child, none) == Some(child);
    forall names | names != [] ensures Lookup(child, names) == At(child, 0, names)
      && (above + [name] + names)[0] == (above + [name])[0] {
    }
    if EntryGood(above, name, child) {
      assert IsGood(above + [name] + none, Lookup(child, none).value);
    }
  }

  lemma {:induction false} EntriesComplete(above: seq<string>, node: Node, i: nat)
    requires node.Directory? && i <= |node.entries| && Names(above) && NormalTree(node, i)
    ensures OfEntries(Join(above, '/'), node, i, {}).clean <==> Named(node, i) && AllGood(above, node, i)
    decreases node, |node.entries| - i
  {
    hide RelativePaths.Parse, OfEntry, Join, IsGood, Lookup, EntryGood, RelativePaths.IsNormal;
    if i == |node.entries| {
      assert forall name :: Child(node, name, i).None?;
    } else {
      EntriesComplete(above, node, i + 1);
      var e := node.entries[i];
      if e.name.Some? {
        EntryCompletes(above, node, i);
        FirstOrLater(above, node, i, e.name.value);
      } else {
        assert !OfEntry(Join(above, '/'), e, {}).clean by { NamelessStops(Join(above, '/'), e); }
      }
    }
  }

  lemma NamelessStops(dir: string, e: Entry)
    requires e.name.None?
    ensures !OfEntry(dir, e, {}).clean
  {
  }

  lemma {:induction false} EntryCompletes(above: seq<string>, node: Node, i: nat)
    requires node.Directory? && i < |node.entries| && Names(above) && NormalTree(node, i) && node.entries[i].name.Some?
    ensures OfEntry(Join(above, '/'), node.entries[i], {}).clean
        <==> EntryGood(above, node.entries[i].name.value, node.entries[i].node)
    decreases node, |node.entries| - i, 0
  {
    hide RelativePaths.Parse, OfEntries, Join, Lookup, AllGood, EntryGood, RelativePaths.IsNormal, Split, Named;
    var e := node.entries[i];
    var name := e.name.value;
    RawSplits(above, name);
    var raw := Join(above + [name], '/');
    if IsMetadata(raw) {
      MetadataGood(above, name, e.node);
    } else if e.node.Directory? {
      DirectoryGood(above, name, e.node);
      EntriesComplete(above + [name], e.node, 0);
    } else {
      LeafGood(above, name, e.node);
    }
  }

  lemma MetadataGood(above: seq<string>, name: string, child: Node)
    requires (above + [name])[0] == RelativePaths.SYNCER_DIR
    ensures EntryGood(above, name, child)
  {
  }

  // ------------------------------------------------------------------
  // With failing calls
  // ------------------------------------------------------------------

  /** A walk that completes although some calls fail completes when none does. */
  lemma {:induction false} FailuresOnlyStop(dir: string, node: Node, i: nat, faults: set<Call>)
    requires node.Directory? && i <= |node.entries| && OfEntries(dir, node, i, faults).clean
    ensures OfEntries(dir, node, i, {}).clean
    decreases node, |node.entries| - i
  {
    hide OfEntry;
    if i < |node.entries| {
      FailuresOnlyStop(dir, node, i + 1, faults);
      FailuresOnlyStopEntry(dir, node.entries[i], faults);
    }
  }

  lemma {:induction false} FailuresOnlyStopEntry(dir: string, e: Entry, faults: set<Call>)
    requires OfEntry(dir, e, faults).clean
    ensures OfEntry(dir, e, {}).clean
    decreases e, 0
  {
    hide RelativePaths.Parse, OfEntries, IsMetadata, Below;
    if e.name.Some? && !IsMetadata(Below(dir, e.name.value)) && e.node.Directory? {
      FailuresOnlyStop(Below(dir, e.name.value), e.node, 0, faults);
    }
  }

  /** A walk in which no call fails completes if and only if every entry outside the
      metadata directory has a name in UTF-8 and a path that parses; and without that no
      walk completes. */
  lemma WalkCompletes(root: Node, faults: set<Call>)
    requires root.Directory? && NormalTree(root, 0)
    ensures OfDirectory("", root, {}).clean <==> EntriesParse(root)
    ensures OfDirectory("", root, faults).clean ==> EntriesParse(root)
  {
    hide OfEntries, IsGood, NormalTree;
    assert Join([], '/') == "";
    EntriesComplete([], root, 0);
    if OfEntries("", root, 0, faults).clean {
      FailuresOnlyStop("", root, 0, faults);
    }
    RootGood(root);
  }

  lemma RootGood(root: Node)
    requires root.Directory?
    ensures AllGood([], root, 0) && Named(root, 0) <==> EntriesParse(root)
  {
    hide IsGood;
    forall names: seq<string> ensures [] + names == names {
    }
    forall names | names != [] ensures Lookup(root, names) == At(root, 0, names) {
    }
  }

  // ------------------------------------------------------------------
  // Names that are enough, and names that are not
  // ------------------------------------------------------------------

  /** No entry outside the metadata directory has white space at the ends of its path, and
      every name is UTF-8. */
  ghost predicate TidyEntries(root: Node) {
    && Named(root, 0)
    && forall names :: names != [] && names[0] != RelativePaths.SYNCER_DIR && Lookup(root, names).Some? ==>
         Tidy(Join(names, '/')) && Named(Lookup(root, names).value, 0)
  }

  /** Then the walk completes if no call fails. */
  lemma TidyEntriesParse(root: Node)
    requires root.Directory? && NormalTree(root, 0) && TidyEntries(root)
    ensures EntriesParse(root)
  {
    hide NormalTree, Tidy, RelativePaths.Parse, Join, Lookup, Named;
    forall names | names != [] && names[0] != RelativePaths.SYNCER_DIR && Lookup(root, names).Some?
      ensures IsGood(names, Lookup(root, names).value)
    {
      NamesAreNormal(root, names);
      assert RelativePaths.MadeOf(Join(names, '/'), names);
      RelativePaths.CanonicalParsesToItself(Join(names, '/'));
    }
  }

  /** One entry anywhere in the folder whose path does not parse stops every walk. */
  lemma OneNameStopsTheWalk(root: Node, names: seq<string>, faults: set<Call>)
    requires root.Directory? && NormalTree(root, 0)
    requires names != [] && names[0] != RelativePaths.SYNCER_DIR && Lookup(root, names).Some?
    requires RelativePaths.Parse(Join(names, '/')).Err?
    ensures !OfDirectory("", root, faults).clean
  {
    hide OfDirectory, RelativePaths.Parse, NormalTree;
    WalkCompletes(root, faults);
    assert !IsGood(names, Lookup(root, names).value);
  }

  lemma {:induction false} TrimmedEndHas(s: string, c: char)
    requires c in TrimEnd(s)
    ensures c in s
    decreases |s|
  {
    if s != [] && IsWhitespace(s[|s| - 1]) {
      TrimmedEndHas(s[..|s| - 1], c);
    }
  }

  lemma {:induction false} TrimmedStartHas(s: string, c: char)
    requires c in TrimStart(s)
    ensures c in s
  {
    if s != [] && IsWhitespace(s[0]) {
      TrimmedStartHas(s[1..], c);
    }
  }

  /** The names that stop a scan at the top of the folder: white space only, and one or two
      dots or the metadata name with white space around. */
  lemma NamesThatDoNotParse(name: string)
    requires '/' !in name
    ensures RelativePaths.Parse(name).Err? <==> Trim(name) in ["", ".", "..", RelativePaths.SYNCER_DIR]
  {
    hide TrimStart, TrimEnd, Split;
    var raw := Trim(name);
    if '/' in raw {
      TrimmedEndHas(TrimStart(name), '/');
      TrimmedStartHas(name, '/');
    }
    SplitPart(raw, '/');
    assert RelativePaths.Normals([raw], 0) == [];
    assert RelativePaths.Normals([raw], 1) == if RelativePaths.IsNormal(raw) then [raw] else [];
    if raw == ".." {
      assert [raw][0] == "..";
    }
  }
}
