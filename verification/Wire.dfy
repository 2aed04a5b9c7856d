/** From the request a client writes to the request the server reads
    (crates/syncer-agent/src/peer_client.rs:66, 143, 171-174, 258-299;
    crates/syncer-agent/src/peer_server.rs:94-150, 383-428). */
module Wire {
  import opened Wrappers
  import opened Domain
  import opened Text
  import opened HttpHead
  import opened Framing
  import opened Fragmentation
  import Decimal
  import PathCodec
  import RelativePaths
  import Utf8

  type Field = (string, string)

  /** Lines as they are sent, without the blank line that follows them. */
  function Glue(lines: seq<string>): string
    requires lines != []
  {
    if |lines| == 1 then lines[0] else lines[0] + "\r\n" + Glue(lines[1..])
  }

  function HeadBytes(lines: seq<string>): (r: Bytes)
    requires lines != []
    ensures |r| >= 4
  {
    Utf8.Encode(Glue(lines)) + END
  }

  function FieldLine(f: Field): string {
    f.0 + ": " + f.1
  }

  /** The first line and the lines of the first `n` fields. */
  function MessageLines(first: string, fields: seq<Field>, n: nat): (r: seq<string>)
    requires n <= |fields|
    ensures |r| == n + 1 && r[0] == first
  {
    if n == 0 then [first] else MessageLines(first, fields, n - 1) + [FieldLine(fields[n - 1])]
  }

  function RequestLine(verb: string, target: string): string {
    verb + " " + target + " HTTP/1.1"
  }

  function RequestHead(verb: string, target: string, fields: seq<Field>): (r: Bytes)
    ensures |r| >= 4
  {
    HeadBytes(MessageLines(RequestLine(verb, target), fields, |fields|))
  }

  function FileTarget(path: Path): string {
    FILE_PREFIX + PathCodec.EncodeRelativePath(path)
  }

  /** The fields by name; the last of a name counts. */
  function FieldMap(fields: seq<Field>, n: nat): map<string, string>
    requires n <= |fields|
  {
    if n == 0 then map[] else FieldMap(fields, n - 1)[fields[n - 1].0 := fields[n - 1].1]
  }

  predicate OneLine(s: string) {
    '\r' !in s && '\n' !in s
  }

  predicate PlainLines(lines: seq<string>) {
    forall i :: 0 <= i < |lines| ==> lines[i] != "" && OneLine(lines[i])
  }

  predicate Word(s: string) {
    s != "" && NoWhitespace(s)
  }

  /** A lower-case name without a colon, and a value without line ends; neither is
      padded with white space. */
  predicate PlainField(f: Field) {
    && f.0 != "" && Tidy(f.0) && OneLine(f.0) && ':' !in f.0 && AsciiLower(f.0) == f.0
    && Tidy(f.1) && OneLine(f.1)
  }

  predicate PlainFields(fields: seq<Field>) {
    forall i :: 0 <= i < |fields| ==> PlainField(fields[i])
  }

  // ------------------------------------------------------------------
  // Lines
  // ------------------------------------------------------------------

  lemma FirstLine(first: string, rest: string)
    requires OneLine(first)
    ensures Lines(first + "\r\n" + rest) == [first] + Lines(rest)
  {
    hide Split;
    SplitFirst(first + "\r", rest, '\n');
    assert first + "\r\n" + rest == (first + "\r") + ['\n'] + rest;
    var parts := Split(first + "\r\n" + rest, '\n');
    assert parts[1..] == Split(rest, '\n');
    assert StripReturn(parts[0]) == first;
  }

  lemma {:induction false} LinesOfGlue(lines: seq<string>)
    requires lines != [] && PlainLines(lines)
    ensures Lines(Glue(lines)) == lines
  {
    hide Lines;
    if |lines| == 1 {
      LinesOfOne(lines[0]);
    } else {
      LinesOfGlue(lines[1..]);
      FirstLine(lines[0], Glue(lines[1..]));
      assert lines == [lines[0]] + lines[1..];
    }
  }

  lemma LinesOfOne(line: string)
    requires line != "" && OneLine(line)
    ensures Lines(line) == [line]
  {
    SplitPart(line, '\n');
  }

  lemma {:induction false} EncodeAppend(a: string, b: string)
    ensures Utf8.Encode(a + b) == Utf8.Encode(a) + Utf8.Encode(b)
  {
    hide Utf8.EncodeChar;
    if a == [] {
      assert a + b == b;
    } else {
      EncodeAppend(a[1..], b);
      assert (a + b)[1..] == a[1..] + b;
    }
  }

  lemma EncodedCharHasNoReturn(c: char)
    requires c != '\r'
    ensures 13 !in Utf8.EncodeChar(c)
  {
  }

  lemma {:induction false} EncodedHasNoReturn(s: string)
    requires '\r' !in s
    ensures 13 !in Utf8.Encode(s) && (s != "" ==> Utf8.Encode(s) != [])
  {
    if s != [] {
      EncodedCharHasNoReturn(s[0]);
      EncodedHasNoReturn(s[1..]);
    }
  }

  lemma NoEndAcross(first: Bytes, rest: Bytes, j: nat)
    requires 13 !in first && rest != [] && rest[0] != 13
    ensures var bytes := first + [13, 10] + rest;
      EndsAt(bytes, j) <==> j >= |first| + 2 && EndsAt(rest, j - |first| - 2)
  {
    var bytes := first + [13, 10] + rest;
    if j < |first| {
      assert bytes[j] == first[j] && first[j] in first;
    } else if j == |first| {
      assert bytes[j + 2] == rest[0];
    } else if j == |first| + 1 {
      assert bytes[j] == 10;
    }
  }

  /** The blank line after the lines is the first one. */
  lemma {:induction false} NoEarlierEnd(lines: seq<string>, j: nat)
    requires lines != [] && PlainLines(lines)
    requires j < |HeadBytes(lines)| - 4
    ensures !EndsAt(HeadBytes(lines), j)
  {
    hide Utf8.Encode, EndsAt;
    var first := Utf8.Encode(lines[0]);
    EncodedHasNoReturn(lines[0]);
    if |lines| > 1 {
      HeadBytesOf(lines);
      EncodedHasNoReturn(lines[1]);
      RestStarts(lines[1..]);
      NoEndAcross(first, HeadBytes(lines[1..]), j);
      if j >= |first| + 2 {
        NoEarlierEnd(lines[1..], j - |first| - 2);
      }
    } else {
      NoEndInside(first, j);
    }
  }

  lemma NoEndInside(first: Bytes, j: nat)
    requires 13 !in first && j < |first|
    ensures !EndsAt(first + END, j)
  {
    assert (first + END)[j] == first[j] && first[j] in first;
  }

  lemma HeadBytesOf(lines: seq<string>)
    requires |lines| > 1
    ensures HeadBytes(lines) == Utf8.Encode(lines[0]) + [13, 10] + HeadBytes(lines[1..])
  {
    hide Utf8.Encode;
    EncodeAppend(lines[0] + "\r\n", Glue(lines[1..]));
    EncodeAppend(lines[0], "\r\n");
    EncodedLineEnd();
  }

  lemma EncodedLineEnd()
    ensures Utf8.Encode("\r\n") == [13, 10]
  {
    assert "\r\n"[1..] == "\n" && "\n"[1..] == "";
  }

  lemma RestStarts(lines: seq<string>)
    requires lines != [] && lines[0] != ""
    ensures HeadBytes(lines)[0] in Utf8.Encode(lines[0])
  {
    var first := Utf8.Encode(lines[0]);
    if |lines| > 1 {
      EncodeAppend(lines[0], "\r\n" + Glue(lines[1..]));
      assert Glue(lines) == lines[0] + ("\r\n" + Glue(lines[1..]));
    }
    assert HeadBytes(lines)[0] == first[0];
  }

  lemma HeadEnds(lines: seq<string>)
    requires lines != [] && PlainLines(lines)
    ensures FindHeaderEnd(HeadBytes(lines)) == Some(|HeadBytes(lines)| - 4)
  {
    var bytes := HeadBytes(lines);
    assert EndsAt(bytes, |bytes| - 4);
    var found := FindHeaderEnd(bytes);
    if found.value < |bytes| - 4 {
      NoEarlierEnd(lines, found.value);
    }
  }

  // ------------------------------------------------------------------
  // Words and fields
  // ------------------------------------------------------------------

  lemma {:induction false} WordLengthOf(w: string, rest: string)
    requires NoWhitespace(w) && (rest == "" || IsWhitespace(rest[0]))
    ensures WordLength(w + rest) == |w|
  {
    if w != [] {
      WordLengthOf(w[1..], rest);
      assert (w + rest)[1..] == w[1..] + rest;
    }
  }

  lemma FirstWord(w: string, rest: string)
    requires Word(w) && (rest == "" || IsWhitespace(rest[0]))
    ensures Words(w + rest) == [w] + Words(rest)
  {
    hide WordLength, NoWhitespace;
    WordLengthOf(w, rest);
    var s := w + rest;
    assert s[0] == w[0] && !IsWhitespace(w[0]) by {
      FirstIsPlain(w);
    }
    assert TrimStart(s) == s && s[..|w|] == w && s[|w|..] == rest;
  }

  lemma FirstIsPlain(w: string)
    requires Word(w)
    ensures !IsWhitespace(w[0])
  {
  }

  lemma SpaceIsSkipped(s: string)
    ensures Words(" " + s) == Words(s)
  {
    hide WordLength;
    assert (" " + s)[1..] == s;
    assert TrimStart(" " + s) == TrimStart(s);
  }

  lemma RequestLineWords(verb: string, target: string)
    requires Word(verb) && Word(target)
    ensures var words := Words(RequestLine(verb, target)); |words| >= 2 && words[0] == verb && words[1] == target
  {
    hide Words, Word;
    var tail := " HTTP/1.1";
    FirstWord(target, tail);
    SpaceIsSkipped(target + tail);
    FirstWord(verb, " " + (target + tail));
    assert RequestLine(verb, target) == verb + (" " + (target + tail));
  }

  lemma FieldLineReads(fields: map<string, string>, f: Field)
    requires PlainField(f)
    ensures AddField(fields, FieldLine(f)) == fields[f.0 := f.1]
  {
    IndexOfFirst(f.0, " " + f.1);
    var line := FieldLine(f);
    assert line == f.0 + ":" + (" " + f.1);
    assert line[..|f.0|] == f.0 && line[|f.0| + 1..] == " " + f.1;
    TrimKeepsTidy(f.0);
    TrimKeepsTidy(f.1);
    assert (" " + f.1)[1..] == f.1;
    assert TrimStart(" " + f.1) == TrimStart(f.1);
  }

  lemma {:induction false} FieldsRead(first: string, fields: seq<Field>, n: nat)
    requires n <= |fields| && PlainFields(fields)
    ensures FieldsOf(MessageLines(first, fields, n), n + 1) == FieldMap(fields, n)
  {
    hide AddField, FieldLine, PlainField;
    if n != 0 {
      FieldsRead(first, fields, n - 1);
      var line := FieldLine(fields[n - 1]);
      FieldsOfPrefix(MessageLines(first, fields, n - 1), line, n);
      FieldLineReads(FieldMap(fields, n - 1), fields[n - 1]);
    }
  }

  lemma {:induction false} FieldsOfPrefix(lines: seq<string>, line: string, n: nat)
    requires n <= |lines|
    ensures FieldsOf(lines + [line], n) == FieldsOf(lines, n)
  {
    if n > 1 {
      FieldsOfPrefix(lines, line, n - 1);
    }
  }

  lemma FieldLineIsPlain(f: Field)
    requires PlainField(f)
    ensures FieldLine(f) != "" && OneLine(FieldLine(f))
  {
  }

  lemma RequestLineIsPlain(verb: string, target: string)
    requires Word(verb) && Word(target)
    ensures RequestLine(verb, target) != "" && OneLine(RequestLine(verb, target))
  {
    assert OneLine(verb) && OneLine(target);
  }

  lemma {:induction false} LinesArePlain(first: string, fields: seq<Field>, n: nat)
    requires n <= |fields| && PlainFields(fields) && first != "" && OneLine(first)
    ensures PlainLines(MessageLines(first, fields, n))
  {
    hide FieldLine, PlainField, OneLine;
    if n != 0 {
      LinesArePlain(first, fields, n - 1);
      FieldLineIsPlain(fields[n - 1]);
    }
  }

  lemma HeadRead(verb: string, target: string, fields: seq<Field>)
    requires Word(verb) && Word(target) && PlainFields(fields)
    ensures var head, named := RequestHead(verb, target, fields), FieldMap(fields, |fields|);
      && FindHeaderEnd(head) == Some(|head| - 4)
      && ParseHead(head[..|head| - 4]) == Ok(Head(verb, Split(target, '?')[0], named, DeclaredLength(named)))
  {
    hide Words, Lines, FieldsOf, FindHeaderEnd, Utf8.Encode, Utf8.Decode, DeclaredLength, Split;
    var first := RequestLine(verb, target);
    var lines := MessageLines(first, fields, |fields|);
    RequestLineIsPlain(verb, target);
    LinesArePlain(first, fields, |fields|);
    HeadEnds(lines);
    LinesOfGlue(lines);
    Utf8.RoundTrip(Glue(lines));
    RequestLineWords(verb, target);
    FieldsRead(first, fields, |fields|);
    var head := RequestHead(verb, target, fields);
    assert head[..|head| - 4] == Utf8.Encode(Glue(lines));
  }

  /** The head a client writes is the head the server parses. */
  lemma HeadSurvives(verb: string, target: string, fields: seq<Field>)
    requires Word(verb) && Word(target) && '?' !in target && PlainFields(fields)
    ensures var head, named := RequestHead(verb, target, fields), FieldMap(fields, |fields|);
      && FindHeaderEnd(head) == Some(|head| - 4)
      && ParseHead(head[..|head| - 4]) == Ok(Head(verb, target, named, DeclaredLength(named)))
  {
    hide ParseHead, FindHeaderEnd, RequestHead, Split, Word;
    HeadRead(verb, target, fields);
    SplitPart(target, '?');
  }

  /** A query after the path of a request is dropped. */
  lemma QueryIsDropped(verb: string, target: string, query: string, fields: seq<Field>)
    requires Word(verb) && Word(target + "?" + query) && '?' !in target && PlainFields(fields)
    ensures var head := RequestHead(verb, target + "?" + query, fields); var parsed := ParseHead(head[..|head| - 4]);
      parsed.Ok? && parsed.value.verb == verb && parsed.value.path == target
  {
    hide ParseHead, FindHeaderEnd, RequestHead, Split, Word;
    HeadRead(verb, target + "?" + query, fields);
    SplitFirst(target, query, '?');
  }

  // ------------------------------------------------------------------
  // Paths
  // ------------------------------------------------------------------

  lemma {:induction false} SafeIsPlain(s: string)
    requires forall i :: 0 <= i < |s| ==> PathCodec.IsSafe(s[i])
    ensures NoWhitespace(s) && '?' !in s
  {
    forall i | 0 <= i < |s| ensures !IsWhitespace(s[i]) && s[i] != '?' {
      assert PathCodec.IsSafe(s[i]);
    }
  }

  lemma EncodedStart(path: Path)
    requires path != [] && path[0] != '/'
    ensures var e := PathCodec.EncodeRelativePath(path); e != [] && e[0] != '/'
  {
    var b := Utf8.Encode(path);
    assert b[0] == Utf8.EncodeChar(path[0])[0];
    assert b[0] != '/' as int;
  }

  /** The target of a file request, and what the server routes it to. */
  lemma TargetRoutes(path: Path)
    requires RelativePaths.Canonical(path)
    ensures Word(FileTarget(path)) && '?' !in FileTarget(path) && FILE_PREFIX <= FileTarget(path)
    ensures RoutedPath(FileTarget(path)) == Ok(path) <==> Tidy(path)
  {
    hide PathCodec.DecodeRelativePath, PathCodec.EncodeRelativePath, Tidy;
    var encoded := PathCodec.EncodeRelativePath(path);
    EncodedIsPlain(path);
    PathCodec.PathRoundTrip(path);
    CanonicalStart(path);
    EncodedStart(path);
    var target := FileTarget(path);
    assert target[|FILE_PREFIX|..] == encoded;
    assert FILE_PREFIX[0] == '/';
    assert StripFile(encoded) == encoded;
    assert StripFile(target) == encoded;
  }

  lemma EncodedIsPlain(path: Path)
    ensures NoWhitespace(PathCodec.EncodeRelativePath(path)) && '?' !in PathCodec.EncodeRelativePath(path)
  {
    PathCodec.EncodedIsSafe(Utf8.Encode(path));
    SafeIsPlain(PathCodec.EncodeRelativePath(path));
  }

  lemma CanonicalStart(path: Path)
    requires RelativePaths.Canonical(path)
    ensures path != [] && path[0] != '/'
  {
    var parts :| RelativePaths.MadeOf(path, parts);
    RelativePaths.JoinStarts(parts);
    assert parts[0][0] in parts[0];
  }

  lemma PrintedLength(headers: map<string, string>, n: U64)
    requires "content-length" in headers && headers["content-length"] == Decimal.Text(n)
    ensures DeclaredLength(headers) == n
  {
    Decimal.ParseOfText(n, U64_MAX);
  }

  /** A request for a file, written by the client and delivered in any pieces, is read
      by the server with the same verb, fields and body, and is routed to the same
      path if and only if that path has no white space at its ends. */
  lemma RequestSurvivesTheWire(verb: string, path: Path, fields: seq<Field>, body: Bytes, cuts: seq<nat>)
    requires Word(verb) && RelativePaths.Canonical(path) && PlainFields(fields)
    requires var named := FieldMap(fields, |fields|);
      "content-length" in named && named["content-length"] == Decimal.Text(|body|) && |body| <= U64_MAX
    requires Overshoot(|RequestHead(verb, FileTarget(path), fields)|, |body|) <= MAX_HEADER_BYTES
    requires verb == "PUT" || |body| <= MAX_MEMORY_BODY_BYTES
    ensures var r := ReadAs(RequestHead(verb, FileTarget(path), fields) + body, cuts);
      && r.Ok?
      && r.value.head == Head(verb, FileTarget(path), FieldMap(fields, |fields|), |body|)
      && r.value.body == body
      && r.value.spooled == (verb == "PUT" && body != [])
      && (RoutedPath(r.value.head.path) == Ok(path) <==> Tidy(path))
  {
    hide ParseHead, FindHeaderEnd, RequestHead, FileTarget, RoutedPath, DeclaredLength, FieldMap, Tidy, Word, ReadAs;
    TargetRoutes(path);
    PrintedLength(FieldMap(fields, |fields|), |body|);
    HeadSurvives(verb, FileTarget(path), fields);
    FramingIsIndependent(RequestHead(verb, FileTarget(path), fields), body);
  }
}
