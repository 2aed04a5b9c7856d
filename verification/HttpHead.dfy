/** The head of a message: its lines, the request line and the header fields
    (crates/syncer-agent/src/peer_server.rs:383-432, 542-551). */
module HttpHead {
  import opened Wrappers
  import opened Domain
  import opened Text
  import Decimal
  import PathCodec
  import RelativePaths
  import Utf8

  datatype Head = Head(verb: string, path: string, headers: map<string, string>, contentLength: U64)

  const FILE_PREFIX := "/file/"

  // ------------------------------------------------------------------
  // Lines and words
  // ------------------------------------------------------------------

  function StripReturn(line: string): string {
    if line != [] && line[|line| - 1] == '\r' then line[..|line| - 1] else line
  }

  // A carriage return goes with the line feed that follows it; a last line without one keeps its own.
  function LinesOf(parts: seq<string>): (r: seq<string>)
    requires parts != []
  {
    if |parts| == 1 then if parts[0] == "" then [] else parts
    else [StripReturn(parts[0])] + LinesOf(parts[1..])
  }

  function Lines(s: string): seq<string> {
    LinesOf(Split(s, '\n'))
  }

  function WordLength(s: string): (n: nat)
    ensures n <= |s| && NoWhitespace(s[..n]) && (n < |s| ==> IsWhitespace(s[n]))
  {
    if s == [] || IsWhitespace(s[0]) then 0 else 1 + WordLength(s[1..])
  }

  /** The maximal runs of characters that are not white space. */
  function Words(s: string): seq<string>
    decreases |s|
  {
    var t := TrimStart(s);
    if t == [] then [] else [t[..WordLength(t)]] + Words(t[WordLength(t)..])
  }

  // ------------------------------------------------------------------
  // Header fields
  // ------------------------------------------------------------------

  function IndexOf(s: string, c: char): (n: nat)
    ensures n <= |s| && c !in s[..n] && (n < |s| ==> s[n] == c)
  {
    if s == [] || s[0] == c then 0 else 1 + IndexOf(s[1..], c)
  }

  function LowerChar(c: char): char {
    if 'A' <= c <= 'Z' then c - 'A' + 'a' else c
  }

  function AsciiLower(s: string): string {
    if s == [] then [] else [LowerChar(s[0])] + AsciiLower(s[1..])
  }

  /** One more line; a line without a colon adds nothing, a repeated name replaces. */
  function AddField(fields: map<string, string>, line: string): map<string, string> {
    var at := IndexOf(line, ':');
    if at == |line| then fields else fields[AsciiLower(Trim(line[..at])) := Trim(line[at + 1..])]
  }

  /** The fields of `lines[1..n]`: the first line is not a field. */
  function FieldsOf(lines: seq<string>, n: nat): map<string, string>
    requires n <= |lines|
  {
    if n <= 1 then map[] else AddField(FieldsOf(lines, n - 1), lines[n - 1])
  }

  function DeclaredLength(headers: map<string, string>): U64 {
    if "content-length" !in headers then 0
    else
      match Decimal.Parse(headers["content-length"], U64_MAX)
      case None => 0
      case Some(n) => n
  }

  // ------------------------------------------------------------------
  // The head
  // ------------------------------------------------------------------

  function ParseHead(bytes: Bytes): Result<Head, ServerError> {
    match Utf8.Decode(bytes)
    case None => Err(InvalidRequest)
    case Some(text) =>
      var lines := Lines(text);
      if lines == [] then Err(InvalidRequest)
      else
        var words := Words(lines[0]);
        if |words| < 2 then Err(InvalidRequest)
        else
          var headers := FieldsOf(lines, |lines|);
          Ok(Head(words[0], Split(words[1], '?')[0], headers, DeclaredLength(headers)))
  }

  method ParseHeaders(lines: seq<string>) returns (headers: map<string, string>)
    ensures headers == FieldsOf(lines, |lines|)
  {
    headers := map[];
    if lines == [] {
      return;
    }
    for i := 1 to |lines|
      invariant headers == FieldsOf(lines, i)
    {
      var at := IndexOf(lines[i], ':');
      if at < |lines[i]| {
        headers := headers[AsciiLower(Trim(lines[i][..at])) := Trim(lines[i][at + 1..])];
      }
    }
  }

  /** Bodies of uploads go to a file, all others stay in memory. */
  predicate Spools(head: Head) {
    head.verb == "PUT" && FILE_PREFIX <= head.path && head.contentLength > 0
  }

  // ------------------------------------------------------------------
  // Routing
  // ------------------------------------------------------------------

  /** Takes the prefix off as often as it is there. */
  function StripFile(path: string): string
    decreases |path|
  {
    if FILE_PREFIX <= path then StripFile(path[|FILE_PREFIX|..]) else path
  }

  /** The file a request for `path` is about. */
  function RoutedPath(path: string): Result<Path, ServerError> {
    match PathCodec.DecodeRelativePath(StripFile(path))
    case Err(_) => Err(InvalidRequest)
    case Ok(p) => Ok(p)
  }

  // ------------------------------------------------------------------
  // Laws
  // ------------------------------------------------------------------

  /** A line ends at a line feed, with the carriage return before it if there is one; a text
      that ends with a line feed has no empty last line. */
  lemma LineEnds(first: string, rest: string)
    requires '\n' !in first
    ensures Lines(first + ['\n'] + rest)
         == [if first != "" && first[|first| - 1] == '\r' then first[..|first| - 1] else first] + Lines(rest)
    ensures Lines(first) == if first == "" then [] else [first]
  {
    hide Split;
    SplitFirst(first, rest, '\n');
    SplitPart(first, '\n');
    var parts := Split(first + ['\n'] + rest, '\n');
    assert parts[1..] == Split(rest, '\n');
  }

  /** Only ASCII capitals change, each into its small letter. */
  lemma {:induction false} LowerExact(s: string, i: nat)
    requires i < |s|
    ensures |AsciiLower(s)| == |s|
    ensures if 'A' <= s[i] <= 'Z' then AsciiLower(s)[i] as int == s[i] as int + 32 else AsciiLower(s)[i] == s[i]
  {
    if i > 0 {
      LowerExact(s[1..], i - 1);
    } else if |s| > 1 {
      LowerExact(s[1..], 0);
    }
  }

  lemma {:induction false} IndexOfFirst(name: string, rest: string)
    requires ':' !in name
    ensures IndexOf(name + ":" + rest, ':') == |name|
  {
    if name != [] {
      IndexOfFirst(name[1..], rest);
      assert (name + ":" + rest)[1..] == name[1..] + ":" + rest;
    }
  }

  lemma {:induction false} IndexOfNone(name: string)
    requires ':' !in name
    ensures IndexOf(name, ':') == |name|
  {
    if name != [] {
      IndexOfNone(name[1..]);
    }
  }

  /** The first colon separates name and value; without one the line is skipped. */
  lemma FieldExact(fields: map<string, string>, name: string, value: string)
    requires ':' !in name
    ensures AddField(fields, name) == fields
    ensures AddField(fields, name + ":" + value) == fields[AsciiLower(Trim(name)) := Trim(value)]
  {
    hide Trim, AsciiLower;
    IndexOfFirst(name, value);
    IndexOfNone(name);
    var line := name + ":" + value;
    assert line[..|name|] == name && line[|name| + 1..] == value;
  }

  /** No length, or one that is no number, counts as none. */
  lemma LengthExact(headers: map<string, string>, n: U64)
    requires n > 0
    ensures DeclaredLength(headers) == n <==>
      "content-length" in headers && Decimal.Parse(headers["content-length"], 0xFFFF_FFFF_FFFF_FFFF) == Some(n)
  {
  }

  /** The prefix comes off as often as it is there, and not otherwise. */
  lemma {:induction false} StripExact(path: string)
    ensures !("/file/" <= StripFile(path)) && StripFile("/file/" + path) == StripFile(path)
    ensures !("/file/" <= path) ==> StripFile(path) == path
    decreases |path|
  {
    var again := "/file/" + path;
    assert again[..6] == "/file/" && again[6..] == path;
    if FILE_PREFIX <= path {
      StripExact(path[|FILE_PREFIX|..]);
    }
  }

  /** A routed path is what the rest of the request's path says, parsed: it never leads
      upwards, however it is escaped. */
  lemma RoutedExact(path: string, text: string)
    requires PathCodec.Says(StripFile(path), text)
    ensures match RelativePaths.Parse(text)
      case Ok(p) => RoutedPath(path) == Ok(p)
      case Err(_) => RoutedPath(path) == Err(InvalidRequest)
    ensures ".." in Split(Trim(text), '/') ==> RoutedPath(path) == Err(InvalidRequest)
  {
    hide PathCodec.DecodeRelativePath, RelativePaths.Parse, Split, Trim;
    PathCodec.DecodeExact(StripFile(path), text);
  }

  /** Only uploads with a body are written to a file. */
  lemma SpoolsExact(head: Head)
    ensures Spools(head) <==> head.verb == "PUT" && "/file/" <= head.path && head.contentLength != 0
  {
  }
}
