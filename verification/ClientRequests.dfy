/** The requests about files as the client writes them, header by header, and what the
    server reads (crates/syncer-agent/src/peer_client.rs:58-75, 134-186, 191-212, 258-299;
    crates/syncer-agent/src/peer_server.rs:94-150, 598-613). */
module ClientRequests {
  import opened Wrappers
  import opened Domain
  import opened Text
  import opened HttpHead
  import opened Framing
  import opened Fragmentation
  import opened Wire
  import Decimal
  import RelativePaths

  const ENCRYPTION_ALGORITHM := "xchacha20poly1305-blake3-v1"

  datatype FileRequest =
    | Get
    | Delete(hash: string, size: U64)
    | Put(hash: string, size: U64, nonce: string)

  /** What signs a request. */
  datatype Sender = Sender(host: string, device: string, timestamp: string, signature: string)

  function Verb(request: FileRequest): string {
    match request
    case Get => "GET"
    case Delete(_, _) => "DELETE"
    case Put(_, _, _) => "PUT"
  }

  /** The header fields in the order they are written; `length` is that of the body. */
  function Fields(request: FileRequest, sender: Sender, length: nat): seq<Field> {
    [("host", sender.host), ("x-syncer-device-id", sender.device), ("x-syncer-timestamp", sender.timestamp),
     ("x-syncer-signature", sender.signature), ("content-type", "application/octet-stream"),
     ("content-length", Decimal.Text(length))]
    + Extra(request) + [("connection", "close")]
  }

  function Extra(request: FileRequest): seq<Field> {
    match request
    case Get => []
    case Delete(hash, size) => [("x-syncer-content-hash", hash), ("x-syncer-file-size", Decimal.Text(size))]
    case Put(hash, size, nonce) =>
      [("x-syncer-content-hash", hash), ("x-syncer-file-size", Decimal.Text(size)),
       ("x-syncer-encryption", ENCRYPTION_ALGORITHM), ("x-syncer-nonce", nonce)]
  }

  predicate PlainValue(v: string) {
    Tidy(v) && OneLine(v)
  }

  predicate PlainValues(request: FileRequest, sender: Sender) {
    && PlainValue(sender.host) && PlainValue(sender.device)
    && PlainValue(sender.timestamp) && PlainValue(sender.signature)
    && (!request.Get? ==> PlainValue(request.hash))
    && (request.Put? ==> PlainValue(request.nonce))
  }

  // ------------------------------------------------------------------
  // Names and values
  // ------------------------------------------------------------------

  predicate NameText(s: string) {
    s != "" && forall i :: 0 <= i < |s| ==> 'a' <= s[i] <= 'z' || s[i] == '-'
  }

  lemma {:induction false} LowerIsFixed(s: string)
    requires forall i :: 0 <= i < |s| ==> 'a' <= s[i] <= 'z' || s[i] == '-'
    ensures AsciiLower(s) == s
  {
    if s != [] {
      LowerIsFixed(s[1..]);
      assert s == [s[0]] + s[1..];
    }
  }

  lemma NamedField(f: Field)
    requires NameText(f.0) && PlainValue(f.1)
    ensures PlainField(f)
  {
    LowerIsFixed(f.0);
  }

  lemma DecimalIsPlain(n: nat)
    ensures PlainValue(Decimal.Text(n))
  {
    Decimal.TextHasDigits(n);
    var s := Decimal.Text(n);
    assert Decimal.IsDigit(s[0]) && Decimal.IsDigit(s[|s| - 1]);
  }

  lemma SenderNames()
    ensures NameText("host") && NameText("x-syncer-device-id") && NameText("x-syncer-timestamp")
    ensures NameText("x-syncer-signature")
  {
  }

  lemma ContentNames()
    ensures NameText("content-type") && NameText("content-length") && NameText("connection")
  {
  }

  lemma FileNames()
    ensures NameText("x-syncer-content-hash") && NameText("x-syncer-file-size")
    ensures NameText("x-syncer-encryption") && NameText("x-syncer-nonce")
  {
  }

  /** Visible ASCII characters only. */
  predicate VisibleText(s: string) {
    s != "" && forall i :: 0 <= i < |s| ==> '!' <= s[i] <= '~'
  }

  lemma VisibleIsPlain(s: string)
    requires VisibleText(s)
    ensures PlainValue(s)
  {
  }

  lemma FixedValues()
    ensures PlainValue("application/octet-stream") && PlainValue(ENCRYPTION_ALGORITHM) && PlainValue("close")
  {
    hide PlainValue;
    VisibleIsPlain("application/octet-stream");
    VisibleIsPlain(ENCRYPTION_ALGORITHM);
    VisibleIsPlain("close");
  }

  lemma FieldsArePlain(request: FileRequest, sender: Sender, length: nat)
    requires PlainValues(request, sender)
    ensures PlainFields(Fields(request, sender, length))
  {
    hide NameText, PlainValue, PlainField;
    SenderNames();
    ContentNames();
    FileNames();
    FixedValues();
    DecimalIsPlain(length);
    if !request.Get? {
      DecimalIsPlain(request.size);
    }
    var fields := Fields(request, sender, length);
    forall i | 0 <= i < |fields| ensures PlainField(fields[i]) {
      NamedField(fields[i]);
    }
  }

  /** A field counts unless a later one has its name. */
  lemma {:induction false} FieldCounts(fields: seq<Field>, n: nat, i: nat)
    requires i < n <= |fields| && forall j :: i < j < n ==> fields[j].0 != fields[i].0
    ensures fields[i].0 in FieldMap(fields, n) && FieldMap(fields, n)[fields[i].0] == fields[i].1
  {
    if i < n - 1 {
      FieldCounts(fields, n - 1, i);
    }
  }

  // ------------------------------------------------------------------
  // What the server reads
  // ------------------------------------------------------------------

  function Size(headers: map<string, string>): Option<U64> {
    if "x-syncer-file-size" in headers then Decimal.Parse(headers["x-syncer-file-size"], U64_MAX) else None
  }

  /** The request and the path the router hands to a handler, with the body it may use. */
  function Routed(request: Request): Result<(FileRequest, Path, Bytes), ServerError> {
    var headers := request.head.headers;
    if !(FILE_PREFIX <= request.head.path) then Err(NotFound)
    else
      match RoutedPath(request.head.path)
      case Err(error) => Err(error)
      case Ok(path) =>
        if request.head.verb == "GET" then Ok((Get, path, []))
        else if request.head.verb == "PUT" then
          if Size(headers).None? || "x-syncer-content-hash" !in headers || "x-syncer-encryption" !in headers
             || headers["x-syncer-encryption"] != ENCRYPTION_ALGORITHM || "x-syncer-nonce" !in headers
             || !request.spooled
          then Err(InvalidRequest)
          else Ok((Put(headers["x-syncer-content-hash"], Size(headers).value, headers["x-syncer-nonce"]), path, request.body))
        else if request.head.verb == "DELETE" then
          if Size(headers).None? || "x-syncer-content-hash" !in headers then Err(InvalidRequest)
          else Ok((Delete(headers["x-syncer-content-hash"], Size(headers).value), path, []))
        else Err(NotFound)
  }

  lemma LengthIsDeclared(request: FileRequest, sender: Sender, length: nat)
    ensures var fields := Fields(request, sender, length); var named := FieldMap(fields, |fields|);
      "content-length" in named && named["content-length"] == Decimal.Text(length)
  {
    var fields := Fields(request, sender, length);
    assert fields[5] == ("content-length", Decimal.Text(length));
    assert "x-syncer-nonce"[0] != "content-length"[0];
    FieldCounts(fields, |fields|, 5);
  }

  lemma FileFieldsRead(request: FileRequest, sender: Sender, length: nat)
    requires !request.Get?
    ensures var fields := Fields(request, sender, length); var named := FieldMap(fields, |fields|);
      && "x-syncer-content-hash" in named && named["x-syncer-content-hash"] == request.hash
      && Size(named) == Some(request.size)
  {
    var fields := Fields(request, sender, length);
    assert fields[6] == ("x-syncer-content-hash", request.hash);
    FieldCounts(fields, |fields|, 6);
    assert fields[7] == ("x-syncer-file-size", Decimal.Text(request.size));
    FieldCounts(fields, |fields|, 7);
    Decimal.ParseOfText(request.size, U64_MAX);
  }

  lemma CipherFieldsRead(request: FileRequest, sender: Sender, length: nat)
    requires request.Put?
    ensures var fields := Fields(request, sender, length); var named := FieldMap(fields, |fields|);
      && "x-syncer-encryption" in named && named["x-syncer-encryption"] == ENCRYPTION_ALGORITHM
      && "x-syncer-nonce" in named && named["x-syncer-nonce"] == request.nonce
  {
    var fields := Fields(request, sender, length);
    assert fields[8] == ("x-syncer-encryption", ENCRYPTION_ALGORITHM);
    FieldCounts(fields, |fields|, 8);
    assert fields[9] == ("x-syncer-nonce", request.nonce);
    FieldCounts(fields, |fields|, 9);
  }

  /** Only uploads have a body, and an upload always has one. */
  predicate BodyFits(request: FileRequest, body: Bytes) {
    (request.Put? <==> body != []) && |body| <= U64_MAX
  }

  function HeadOf(request: FileRequest, sender: Sender, path: Path, body: Bytes): (r: Bytes)
    ensures |r| >= 4
  {
    RequestHead(Verb(request), FileTarget(path), Fields(request, sender, |body|))
  }

  /** A request about a plain path, written by the client and delivered in any pieces,
      reaches the handler as the same request, for the same path, with the same body. */
  lemma RequestReachesTheHandler(request: FileRequest, sender: Sender, path: Path, body: Bytes, cuts: seq<nat>)
    requires PlainValues(request, sender) && RelativePaths.Plain(path) && BodyFits(request, body)
    requires Overshoot(|HeadOf(request, sender, path, body)|, |body|) <= MAX_HEADER_BYTES
    ensures var r := ReadAs(HeadOf(request, sender, path, body) + body, cuts);
      r.Ok? && Routed(r.value) == Ok((request, path, body))
  {
    hide ReadAs, RequestHead, FileTarget, RoutedPath, PlainFields, Fields, FieldMap, Size, RelativePaths.Plain,
      RelativePaths.Canonical, Tidy, PlainValues, DeclaredLength;
    var fields := Fields(request, sender, |body|);
    FieldsArePlain(request, sender, |body|);
    LengthIsDeclared(request, sender, |body|);
    RelativePaths.PlainIsTidy(path);
    VerbIsWord(request);
    RequestSurvivesTheWire(Verb(request), path, fields, body, cuts);
    TargetRoutes(path);
    if !request.Get? {
      FileFieldsRead(request, sender, |body|);
    }
    if request.Put? {
      CipherFieldsRead(request, sender, |body|);
    }
  }

  lemma VerbIsWord(request: FileRequest)
    ensures Word(Verb(request)) && (Verb(request) == "PUT" <==> request.Put?)
  {
  }

  /** What reaches a handler is a request a client can have written: its verb, and a header
      for each field that is written for it; and for an upload, a body of its own. */
  lemma RoutedWasWritten(r: Request)
    requires Routed(r).Ok?
    ensures var (request, path, body) := Routed(r).value; var headers := r.head.headers;
      && r.head.verb == Verb(request) && FILE_PREFIX <= r.head.path && RoutedPath(r.head.path) == Ok(path)
      && (!request.Get? ==>
            && "x-syncer-content-hash" in headers && headers["x-syncer-content-hash"] == request.hash
            && "x-syncer-file-size" in headers
            && Decimal.Parse(headers["x-syncer-file-size"], U64_MAX) == Some(request.size))
      && (request.Put? ==>
            && "x-syncer-encryption" in headers && headers["x-syncer-encryption"] == "xchacha20poly1305-blake3-v1"
            && "x-syncer-nonce" in headers && headers["x-syncer-nonce"] == request.nonce
            && r.spooled && body == r.body)
      && (!request.Put? ==> body == [])
  {
    hide RoutedPath, Decimal.Parse;
  }
}
