/** From the response the server writes to the response the client reads
    (crates/syncer-agent/src/peer_server.rs:625-698; crates/syncer-agent/src/peer_client.rs:82-107, 346-393). */
module ServerResponses {
  import opened Wrappers
  import opened Domain
  import opened Text
  import opened HttpHead
  import opened Framing
  import opened Wire
  import opened PeerReader
  import ClientRequests
  import Decimal
  import Utf8

  function Reason(status: nat): string {
    if status == 200 then "OK"
    else if status == 400 then "Bad Request"
    else if status == 401 then "Unauthorized"
    else if status == 404 then "Not Found"
    else if status == 409 then "Conflict"
    else if status == 413 then "Payload Too Large"
    else "Internal Server Error"
  }

  function StatusLine(status: nat): string {
    "HTTP/1.1 " + Decimal.Text(status) + " " + Reason(status)
  }

  function ResponseFields(contentType: string, length: nat, extra: seq<Field>): seq<Field> {
    [("content-type", contentType), ("content-length", Decimal.Text(length))] + extra + [("connection", "close")]
  }

  function ResponseBytes(status: nat, fields: seq<Field>): (r: Bytes)
    ensures |r| >= 4
  {
    HeadBytes(MessageLines(StatusLine(status), fields, |fields|))
  }

  /** The fields that go with an encrypted file. */
  function FileFields(nonce: string, hash: string, size: nat): seq<Field> {
    [("x-syncer-encryption", ClientRequests.ENCRYPTION_ALGORITHM), ("x-syncer-nonce", nonce),
     ("x-syncer-content-hash", hash), ("x-syncer-plaintext-size", Decimal.Text(size))]
  }

  // ------------------------------------------------------------------
  // The status line
  // ------------------------------------------------------------------

  lemma ReasonIsPlain(status: nat)
    ensures Reason(status) != "" && OneLine(Reason(status))
  {
    hide OneLine;
    SmallReasons();
    LargeReasons();
  }

  lemma SmallReasons()
    ensures OneLine("OK") && OneLine("Bad Request") && OneLine("Unauthorized") && OneLine("Not Found")
  {
  }

  lemma LargeReasons()
    ensures OneLine("Conflict") && OneLine("Payload Too Large") && OneLine("Internal Server Error")
  {
  }

  lemma StatusIsWord(status: nat)
    ensures Word(Decimal.Text(status)) && OneLine(Decimal.Text(status))
  {
    Decimal.TextHasDigits(status);
    var s := Decimal.Text(status);
    forall i | 0 <= i < |s| ensures !IsWhitespace(s[i]) && s[i] != '\r' {
      assert Decimal.IsDigit(s[i]);
    }
  }

  lemma StatusLineIsPlain(status: nat)
    ensures StatusLine(status) != "" && OneLine(StatusLine(status))
  {
    hide Decimal.Text, Reason;
    StatusIsWord(status);
    ReasonIsPlain(status);
  }

  lemma StatusLineWords(status: nat)
    ensures var words := Words(StatusLine(status)); |words| >= 2 && words[1] == Decimal.Text(status)
  {
    hide Words, Word, Decimal.Text, Reason;
    var rest := " " + Reason(status);
    StatusIsWord(status);
    ProtocolIsWord();
    FirstWord(Decimal.Text(status), rest);
    SpaceIsSkipped(Decimal.Text(status) + rest);
    FirstWord("HTTP/1.1", " " + (Decimal.Text(status) + rest));
    assert StatusLine(status) == "HTTP/1.1" + (" " + (Decimal.Text(status) + rest));
  }

  lemma ProtocolIsWord()
    ensures Word("HTTP/1.1")
  {
  }

  // ------------------------------------------------------------------
  // What the client reads
  // ------------------------------------------------------------------

  lemma LinesRead(status: nat, fields: seq<Field>)
    requires PlainFields(fields)
    ensures var head, lines := ResponseBytes(status, fields), MessageLines(StatusLine(status), fields, |fields|);
      && FindHeaderEnd(head) == Some(|head| - 4)
      && Utf8.Decode(head[..|head| - 4]) == Some(Glue(lines)) && Lines(Glue(lines)) == lines
      && FieldsOf(lines, |lines|) == FieldMap(fields, |fields|)
  {
    hide Lines, FieldsOf, FindHeaderEnd, Utf8.Encode, Utf8.Decode, StatusLine;
    var first := StatusLine(status);
    var lines := MessageLines(first, fields, |fields|);
    StatusLineIsPlain(status);
    LinesArePlain(first, fields, |fields|);
    HeadEnds(lines);
    LinesOfGlue(lines);
    Utf8.RoundTrip(Glue(lines));
    FieldsRead(first, fields, |fields|);
    var head := ResponseBytes(status, fields);
    assert head[..|head| - 4] == Utf8.Encode(Glue(lines));
  }

  lemma LengthOfHead(head: Bytes, body: Bytes)
    requires |head| >= 4 && FindHeaderEnd(head) == Some(|head| - 4) && |head| <= RESPONSE_HEADER_LIMIT_BYTES
    ensures HeadLength(head + body) == Ok(|head|)
  {
    hide FindHeaderEnd;
    assert (head + body)[..|head|] == head;
    EndInPrefix(head + body, |head|);
  }

  /** A response with any plain fields is read with its status, its length and its fields,
      up to its blank line and no further. */
  lemma ResponseSurvives(status: nat, fields: seq<Field>, length: U64, body: Bytes)
    requires PlainFields(fields) && status <= U16_MAX
    requires var named := FieldMap(fields, |fields|); "content-length" in named && named["content-length"] == Decimal.Text(length)
    requires |ResponseBytes(status, fields)| <= RESPONSE_HEADER_LIMIT_BYTES
    ensures var head := ResponseBytes(status, fields);
      && HeadLength(head + body) == Ok(|head|)
      && ParseResponseHead(head[..|head| - 4]) == Ok(ResponseHead(status, length, FieldMap(fields, |fields|)))
  {
    hide Words, Lines, FieldsOf, FindHeaderEnd, ResponseBytes, Utf8.Decode, Decimal.Parse, Decimal.Text, StatusLine, PlainFields,
      HeadLength, Glue, FieldMap;
    LinesRead(status, fields);
    StatusLineWords(status);
    Decimal.ParseOfText(status, U16_MAX);
    Decimal.ParseOfText(length, U64_MAX);
    LengthOfHead(ResponseBytes(status, fields), body);
  }

  lemma FileFieldsArePlain(nonce: string, hash: string, size: nat, length: nat)
    requires ClientRequests.PlainValue(nonce) && ClientRequests.PlainValue(hash)
    ensures PlainFields(ResponseFields("application/octet-stream", length, FileFields(nonce, hash, size)))
  {
    hide ClientRequests.NameText, ClientRequests.PlainValue, PlainField, Decimal.Text;
    ClientRequests.ContentNames();
    ClientRequests.FileNames();
    ClientRequests.FixedValues();
    ClientRequests.DecimalIsPlain(length);
    ClientRequests.DecimalIsPlain(size);
    SizeName();
    var fields := ResponseFields("application/octet-stream", length, FileFields(nonce, hash, size));
    forall i | 0 <= i < |fields| ensures PlainField(fields[i]) {
      ClientRequests.NamedField(fields[i]);
    }
  }

  lemma SizeName()
    ensures ClientRequests.NameText("x-syncer-plaintext-size")
  {
  }

  lemma FileFieldsRead(nonce: string, hash: string, size: nat, length: nat)
    ensures var fields := ResponseFields("application/octet-stream", length, FileFields(nonce, hash, size));
      var named := FieldMap(fields, |fields|);
      && "content-length" in named && named["content-length"] == Decimal.Text(length)
      && "x-syncer-encryption" in named && named["x-syncer-encryption"] == ClientRequests.ENCRYPTION_ALGORITHM
      && "x-syncer-nonce" in named && named["x-syncer-nonce"] == nonce
      && "x-syncer-content-hash" in named && named["x-syncer-content-hash"] == hash
  {
    var fields := ResponseFields("application/octet-stream", length, FileFields(nonce, hash, size));
    assert fields[1] == ("content-length", Decimal.Text(length));
    assert fields[2] == ("x-syncer-encryption", ClientRequests.ENCRYPTION_ALGORITHM);
    assert fields[3] == ("x-syncer-nonce", nonce) && fields[4] == ("x-syncer-content-hash", hash);
    hide Decimal.Text;
    ClientRequests.FieldCounts(fields, |fields|, 1);
    ClientRequests.FieldCounts(fields, |fields|, 2);
    ClientRequests.FieldCounts(fields, |fields|, 3);
    ClientRequests.FieldCounts(fields, |fields|, 4);
  }

  /** An encrypted file, written by the server and delivered in any pieces, is read by the
      client with status 200, the length of the body, and the algorithm, nonce and hash it
      was sent with; the body is the announced bytes behind the head. */
  lemma FileReachesTheClient(nonce: string, hash: string, size: nat, body: Bytes)
    requires ClientRequests.PlainValue(nonce) && ClientRequests.PlainValue(hash) && |body| <= U64_MAX
    requires var fields := ResponseFields("application/octet-stream", |body|, FileFields(nonce, hash, size));
      |ResponseBytes(200, fields)| <= RESPONSE_HEADER_LIMIT_BYTES
    ensures var fields := ResponseFields("application/octet-stream", |body|, FileFields(nonce, hash, size));
      var data := ResponseBytes(200, fields) + body;
      && HeadLength(data).Ok? && HeadLength(data).value == |data| - |body|
      && var r := ParseResponseHead(data[..HeadLength(data).value - 4]);
         && r.Ok? && r.value.status == 200 && r.value.contentLength == |body|
         && "x-syncer-encryption" in r.value.headers
         && r.value.headers["x-syncer-encryption"] == ClientRequests.ENCRYPTION_ALGORITHM
         && "x-syncer-nonce" in r.value.headers && r.value.headers["x-syncer-nonce"] == nonce
         && "x-syncer-content-hash" in r.value.headers && r.value.headers["x-syncer-content-hash"] == hash
  {
    hide ResponseBytes, ParseResponseHead, HeadLength, ResponseFields, FieldMap, PlainFields, Decimal.Text, FileFields;
    var fields := ResponseFields("application/octet-stream", |body|, FileFields(nonce, hash, size));
    FileFieldsArePlain(nonce, hash, size, |body|);
    FileFieldsRead(nonce, hash, size, |body|);
    ResponseSurvives(200, fields, |body|, body);
    var head := ResponseBytes(200, fields);
    assert (head + body)[..|head| - 4] == head[..|head| - 4];
  }
}
