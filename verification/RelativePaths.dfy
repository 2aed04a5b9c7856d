/** Parsing of user paths (crates/syncer-core/src/manifest.rs). */
module RelativePaths {
  import opened Wrappers
  import opened Domain
  import opened Text

  datatype PathError = EmptyRelativePath | AbsoluteRelativePath | TraversalRelativePath | SyncerMetadataPath

  const SYNCER_DIR := ".syncer"

  predicate IsNormal(part: string) {
    part != "" && part != "." && part != ".."
  }

  /** The components that stay, in order, of the first `n` parts. */
  function Normals(parts: seq<string>, n: nat): seq<string>
    requires n <= |parts|
  {
    if n == 0 then []
    else if IsNormal(parts[n - 1]) then Normals(parts, n - 1) + [parts[n - 1]]
    else Normals(parts, n - 1)
  }

  predicate Climbs(parts: seq<string>, n: nat)
    requires n <= |parts|
  {
    exists i :: 0 <= i < n && parts[i] == ".."
  }

  function Parse(value: string): Result<Path, PathError> {
    var raw := Trim(value);
    if raw == "" then Err(EmptyRelativePath)
    else if raw[0] == '/' then Err(AbsoluteRelativePath)
    else
      var parts := Split(raw, '/');
      var normals := Normals(parts, |parts|);
      if Climbs(parts, |parts|) then Err(TraversalRelativePath)
      else if normals == [] then Err(EmptyRelativePath)
      else if normals[0] == SYNCER_DIR then Err(SyncerMetadataPath)
      else Ok(Join(normals, '/'))
  }

  /** A path that parsing leaves as it is. */
  predicate Plain(path: string) {
    Parse(path) == Ok(path)
  }

  lemma OneLetterIsPlain()
    ensures Plain("a")
  {
    assert Trim("a") == "a";
    hide Trim;
    SplitPart("a", '/');
    assert Normals(["a"], 1) == ["a"];
  }

  /** A path that parsing leaves alone. */
  type PlainPath = p: string | Plain(p) witness (OneLetterIsPlain(); "a")

  lemma {:induction false} JoinPush(parts: seq<string>, part: string)
    ensures Join(parts + [part], '/') == if parts == [] then part else Join(parts, '/') + "/" + part
  {
    if |parts| > 1 {
      JoinPush(parts[1..], part);
      assert (parts + [part])[1..] == parts[1..] + [part];
    } else if |parts| == 1 {
      assert (parts + [part])[1..] == [part];
    } else {
      assert parts + [part] == [part];
    }
  }

  /** Builds the normalized path component by component. */
  method ParseRelativePath(value: string) returns (r: Result<Path, PathError>)
    ensures r == Parse(value)
  {
    var raw := Trim(value);
    if raw == "" {
      return Err(EmptyRelativePath);
    }
    if raw[0] == '/' {
      return Err(AbsoluteRelativePath);
    }
    var parts := Split(raw, '/');
    var normalized: string, first: string, empty := "", "", true;
    for i := 0 to |parts|
      invariant !Climbs(parts, i)
      invariant normalized == Join(Normals(parts, i), '/')
      invariant empty <==> Normals(parts, i) == []
      invariant !empty ==> first == Normals(parts, i)[0]
    {
      var part := parts[i];
      if part == ".." {
        assert Climbs(parts, |parts|);
        return Err(TraversalRelativePath);
      }
      if part != "" && part != "." {
        JoinPush(Normals(parts, i), part);
        normalized := if empty then part else normalized + "/" + part;
        first := if empty then part else first;
        empty := false;
      }
    }
    if empty {
      return Err(EmptyRelativePath);
    }
    if first == SYNCER_DIR {
      return Err(SyncerMetadataPath);
    }
    r := Ok(normalized);
  }

  // ------------------------------------------------------------------
  // What a parsed path looks like
  // ------------------------------------------------------------------

  ghost predicate AreNormal(parts: seq<string>) {
    forall i :: 0 <= i < |parts| ==> IsNormal(parts[i]) && '/' !in parts[i]
  }

  /** A path made of normal components, outside the metadata directory. */
  ghost predicate MadeOf(path: Path, parts: seq<string>) {
    parts != [] && AreNormal(parts) && parts[0] != SYNCER_DIR && path == Join(parts, '/')
  }

  ghost predicate Canonical(path: Path) {
    exists parts :: MadeOf(path, parts)
  }

  lemma {:induction false} NormalsAreNormal(parts: seq<string>, n: nat)
    requires n <= |parts| && forall i :: 0 <= i < |parts| ==> '/' !in parts[i]
    ensures AreNormal(Normals(parts, n))
  {
    if n != 0 {
      NormalsAreNormal(parts, n - 1);
    }
  }

  lemma {:induction false} NormalsOfNormal(parts: seq<string>, n: nat)
    requires n <= |parts| && AreNormal(parts)
    ensures Normals(parts, n) == parts[..n]
  {
    if n != 0 {
      NormalsOfNormal(parts, n - 1);
      assert parts[..n] == parts[..n - 1] + [parts[n - 1]];
    }
  }

  /** Whatever parses is canonical: it has no empty, dot or dot-dot component, is
      not absolute, and does not lie in the metadata directory. */
  lemma ParsedIsCanonical(value: string)
    requires Parse(value).Ok?
    ensures Canonical(Parse(value).value)
  {
    var parts := Split(Trim(value), '/');
    PartsHaveNoSeparator(Trim(value), '/');
    NormalsAreNormal(parts, |parts|);
    assert MadeOf(Parse(value).value, Normals(parts, |parts|));
  }

  lemma JoinStarts(parts: seq<string>)
    requires parts != [] && AreNormal(parts)
    ensures Join(parts, '/') != [] && Join(parts, '/')[0] == parts[0][0]
  {
  }

  /** A canonical path parses to itself if and only if it has no white space at
      its ends. */
  lemma CanonicalParsesToItself(path: Path)
    requires Canonical(path)
    ensures Parse(path) == Ok(path) <==> Tidy(path)
  {
    var parts :| MadeOf(path, parts);
    TrimKeepsTidy(path);
    if Tidy(path) {
      JoinStarts(parts);
      SplitOfJoin(parts, '/');
      NormalsOfNormal(parts, |parts|);
      assert parts[..|parts|] == parts;
      assert parts[0][0] in parts[0];
    } else if Parse(path).Ok? {
      ParsedIsNoLonger(path);
    }
  }

  lemma PlainIsTidy(path: Path)
    ensures Plain(path) <==> Canonical(path) && Tidy(path)
  {
    if Plain(path) {
      ParsedIsCanonical(path);
    }
    if Canonical(path) {
      CanonicalParsesToItself(path);
    }
  }

  function Total(parts: seq<string>, n: nat): nat
    requires n <= |parts|
  {
    if n == 0 then 0 else Total(parts, n - 1) + |parts[n - 1]| + 1
  }

  lemma {:induction false} TotalFromFront(parts: seq<string>, n: nat)
    requires 0 < n <= |parts|
    ensures Total(parts, n) == |parts[0]| + 1 + Total(parts[1..], n - 1)
  {
    if n > 1 {
      TotalFromFront(parts, n - 1);
    }
  }

  lemma {:induction false} TotalOfSplit(s: string)
    ensures Total(Split(s, '/'), |Split(s, '/')|) == |s| + 1
  {
    if s != [] {
      TotalOfSplit(s[1..]);
      TotalOfSplitStep(s);
    }
  }

  lemma TotalOfSplitStep(s: string)
    requires s != []
    ensures var parts, rest := Split(s, '/'), Split(s[1..], '/');
      Total(parts, |parts|) == Total(rest, |rest|) + 1
  {
    hide Total;
    var parts, rest := Split(s, '/'), Split(s[1..], '/');
    TotalFromFront(parts, |parts|);
    if s[0] == '/' {
      assert parts[1..] == rest;
    } else {
      TotalFromFront(rest, |rest|);
      assert parts[1..] == rest[1..];
    }
  }

  lemma {:induction false} TotalOfJoin(parts: seq<string>)
    requires parts != []
    ensures Total(parts, |parts|) == |Join(parts, '/')| + 1
  {
    TotalFromFront(parts, |parts|);
    if |parts| > 1 {
      TotalOfJoin(parts[1..]);
    }
  }

  lemma {:induction false} NormalsAreShorter(parts: seq<string>, n: nat)
    requires n <= |parts|
    ensures Total(Normals(parts, n), |Normals(parts, n)|) <= Total(parts, n)
  {
    if n != 0 {
      NormalsAreShorter(parts, n - 1);
      if IsNormal(parts[n - 1]) {
        TotalOfPrefix(Normals(parts, n - 1), parts[n - 1], |Normals(parts, n - 1)|);
      }
    }
  }

  lemma {:induction false} TotalOfPrefix(parts: seq<string>, part: string, n: nat)
    requires n <= |parts|
    ensures Total(parts + [part], n) == Total(parts, n)
  {
    if n != 0 {
      TotalOfPrefix(parts, part, n - 1);
    }
  }

  lemma ParsedIsNoLonger(value: string)
    requires Parse(value).Ok?
    ensures |Parse(value).value| <= |Trim(value)|
  {
    var parts := Split(Trim(value), '/');
    TotalOfSplit(Trim(value));
    NormalsAreShorter(parts, |parts|);
    TotalOfJoin(Normals(parts, |parts|));
  }

  /** A leading dot component hides white space from the trimming. */
  lemma DotHidesSpace()
    ensures Parse("./ a") == Ok(" a")
  {
    hide Trim;
    var raw := "./ a";
    assert raw[0] == '.' && raw[3] == 'a' && Tidy(raw);
    TrimKeepsTidy(raw);
    assert Split(raw, '/') == [".", " a"] by {
      SplitFirst(".", " a", '/');
      SplitPart(" a", '/');
      assert "." + "/" + " a" == raw;
    }
    assert Normals([".", " a"], 2) == [" a"];
  }

  /** Parsing twice can fail to be parsing once: the result may begin with a space. */
  lemma ParsingIsNotIdempotent()
    ensures Parse("./ a") == Ok(" a") && Parse(" a") == Ok("a")
  {
    DotHidesSpace();
    assert Trim(" a") == "a";
    hide Trim;
    SplitPart("a", '/');
    assert Normals(["a"], 1) == ["a"];
  }

  // ------------------------------------------------------------------
  // What parses, and to what
  // ------------------------------------------------------------------

  /** Neither empty nor a dot. */
  predicate Stays(part: string) {
    part != "" && part != "."
  }

  /** `kept` are the parts that stay, in their order: `at` says where each comes from. */
  ghost predicate AreThoseThatStay(parts: seq<string>, kept: seq<string>, at: seq<nat>) {
    && |at| == |kept|
    && (forall k :: 0 <= k < |at| ==> at[k] < |parts| && kept[k] == parts[at[k]] && Stays(kept[k]))
    && (forall j, k :: 0 <= j < k < |at| ==> at[j] < at[k])
    && (forall i :: 0 <= i < |parts| && Stays(parts[i]) ==> i in at)
  }

  /** The first part that stays is not the metadata directory. */
  ghost predicate StartsOutsideMetadata(parts: seq<string>) {
    exists i :: 0 <= i < |parts| && Stays(parts[i]) && parts[i] != ".syncer" && forall j :: 0 <= j < i ==> !Stays(parts[j])
  }

  lemma {:induction false} NormalsStay(parts: seq<string>, n: nat) returns (at: seq<nat>)
    requires n <= |parts| && forall i :: 0 <= i < n ==> parts[i] != ".."
    ensures AreThoseThatStay(parts[..n], Normals(parts, n), at)
  {
    at := [];
    if n != 0 {
      at := NormalsStay(parts, n - 1);
      if Stays(parts[n - 1]) {
        at := at + [n - 1];
      }
      assert parts[..n][..n - 1] == parts[..n - 1];
      forall i | 0 <= i < n && Stays(parts[..n][i]) ensures i in at {
        if i < n - 1 {
          assert Stays(parts[..n - 1][i]);
        }
      }
    }
  }

  lemma FirstThatStays(parts: seq<string>, kept: seq<string>, at: seq<nat>)
    requires AreThoseThatStay(parts, kept, at)
    ensures StartsOutsideMetadata(parts) <==> kept != [] && kept[0] != SYNCER_DIR
  {
    if kept != [] {
      assert forall k :: 0 <= k < |at| ==> at[0] <= at[k];
      assert forall j :: 0 <= j < at[0] ==> !Stays(parts[j]);
    }
  }

  lemma ClimbsExact(parts: seq<string>)
    ensures Climbs(parts, |parts|) <==> ".." in parts
  {
  }

  /** A value parses if and only if, trimmed, it is not empty or absolute, none of its
      components leads upwards, and the first that is not empty or a dot is not the metadata
      directory; the components of the result are then those of the value without the
      empty ones and the dots. */
  lemma ParseExact(value: string)
    ensures var raw := Trim(value); var parts := Split(raw, '/');
      && (Parse(value).Ok? <==> raw != "" && raw[0] != '/' && ".." !in parts && StartsOutsideMetadata(parts))
      && (Parse(value).Ok? ==> exists at :: AreThoseThatStay(parts, Split(Parse(value).value, '/'), at))
  {
    hide Trim, AreThoseThatStay, StartsOutsideMetadata, Climbs;
    var raw := Trim(value);
    var parts := Split(raw, '/');
    ClimbsExact(parts);
    if ".." !in parts {
      var at := NormalsStay(parts, |parts|);
      assert parts[..|parts|] == parts;
      FirstThatStays(parts, Normals(parts, |parts|), at);
      if Parse(value).Ok? {
        PartsHaveNoSeparator(raw, '/');
        NormalsAreNormal(parts, |parts|);
        SplitOfJoin(Normals(parts, |parts|), '/');
      }
    }
  }

  /** Which error a value gets that does not parse. */
  lemma ParseErrors(value: string)
    requires Parse(value).Err?
    ensures var raw := Trim(value); var parts := Split(raw, '/');
      && (Parse(value).error == AbsoluteRelativePath <==> raw != "" && raw[0] == '/')
      && (Parse(value).error == TraversalRelativePath <==> raw != "" && raw[0] != '/' && ".." in parts)
      && (Parse(value).error == SyncerMetadataPath ==> ".syncer" in parts)
      && (Parse(value).error == EmptyRelativePath ==> forall i :: 0 <= i < |parts| ==> !Stays(parts[i]))
  {
    hide Trim, Climbs;
    var raw := Trim(value);
    var parts := Split(raw, '/');
    ClimbsExact(parts);
    if raw != "" && ".." !in parts {
      var at := NormalsStay(parts, |parts|);
      assert parts[..|parts|] == parts;
    }
  }
}
