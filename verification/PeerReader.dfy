/** Reading a response: the head byte by byte, then exactly the announced body
    (crates/syncer-agent/src/peer_client.rs:346-413). */
module PeerReader {
  import opened Wrappers
  import opened Domain
  import opened HttpHead
  import opened Framing
  import Decimal
  import Utf8

  const RESPONSE_HEADER_LIMIT_BYTES: nat := 16 * 1024
  const COPY_READ: nat := 64 * 1024
  const U16_MAX: nat := 0xFFFF

  datatype ReadError = InvalidResponse | UnexpectedEnd

  datatype ResponseHead = ResponseHead(status: nat, contentLength: U64, headers: map<string, string>)

  /** Where the head of a response ends, its blank line included. */
  function HeadLength(data: Bytes): Result<nat, ReadError> {
    match FindHeaderEnd(data)
    case Some(end) => if end + 4 <= RESPONSE_HEADER_LIMIT_BYTES then Ok(end + 4) else Err(InvalidResponse)
    case None => if |data| > RESPONSE_HEADER_LIMIT_BYTES then Err(InvalidResponse) else Err(UnexpectedEnd)
  }

  /** A head may have 16 KiB with its blank line; without one in as many bytes it is refused,
      and a stream that ends before is too short. */
  lemma HeadLimit(data: Bytes, n: nat)
    ensures HeadLength(data) == Ok(n) <==> n >= 4 && FindHeaderEnd(data) == Some(n - 4) && n <= 16384
    ensures HeadLength(data) == Err(UnexpectedEnd) <==> FindHeaderEnd(data) == None && |data| <= 16384
  {
    hide FindHeaderEnd;
  }

  function ParseResponseHead(bytes: Bytes): Result<ResponseHead, ReadError> {
    match Utf8.Decode(bytes)
    case None => Err(InvalidResponse)
    case Some(text) =>
      var lines := Lines(text);
      if lines == [] || |Words(lines[0])| < 2 then Err(InvalidResponse)
      else
        var status, headers := Decimal.Parse(Words(lines[0])[1], U16_MAX), FieldsOf(lines, |lines|);
        if status.None? || "content-length" !in headers then Err(InvalidResponse)
        else
          match Decimal.Parse(headers["content-length"], U64_MAX)
          case None => Err(InvalidResponse)
          case Some(length) => Ok(ResponseHead(status.value, length, headers))
  }

  /** No matter how the response is cut up, the head is the bytes up to its first
      blank line, and nothing after them is consumed. */
  method ReadResponseHead(c: Connection) returns (r: Result<ResponseHead, ReadError>)
    requires c.Valid() && c.at == 0
    modifies c`at, c`cuts
    ensures c.Valid()
    ensures HeadLength(c.data).Err? ==> r == Err(HeadLength(c.data).error)
    ensures HeadLength(c.data).Ok? ==>
      HeadLength(c.data) == Ok(c.at) && c.at >= 4 && r == ParseResponseHead(c.data[..c.at - 4])
  {
    hide ParseResponseHead, FindHeaderEnd;
    var bytes: Bytes := [];
    EndInPrefix(c.data, 0);
    while true
      invariant c.Valid() && bytes == c.data[..c.at] && c.at <= RESPONSE_HEADER_LIMIT_BYTES
      invariant FindHeaderEnd(c.data).Some? ==> FindHeaderEnd(c.data).value + 4 > c.at
      decreases |c.data| - c.at
    {
      var byte := c.Read(1);
      if |byte| == 0 {
        NoEndBeyond(c.data);
        return Err(UnexpectedEnd);
      }
      bytes := bytes + byte;
      assert bytes == c.data[..c.at];
      if |bytes| > RESPONSE_HEADER_LIMIT_BYTES {
        return Err(InvalidResponse);
      }
      EndIsFirst(c.data, c.at);
      if |bytes| >= 4 && EndsAt(bytes, |bytes| - 4) {
        break;
      }
    }
    EndInPrefix(c.data, c.at);
    var end := FindHeaderEnd(bytes);
    if end.None? {
      return Err(InvalidResponse);
    }
    assert bytes[..end.value] == c.data[..end.value];
    r := ParseResponseHead(bytes[..end.value]);
  }

  lemma NoEndBeyond(data: Bytes)
    ensures FindHeaderEnd(data).Some? ==> FindHeaderEnd(data).value + 4 <= |data|
  {
  }

  /** When no end lies in the first `n - 1` bytes, the first `n` end with one exactly
      if that is the first one. */
  lemma EndIsFirst(data: Bytes, n: nat)
    requires 0 < n <= |data| && (FindHeaderEnd(data).Some? ==> FindHeaderEnd(data).value + 4 >= n)
    ensures n >= 4 && EndsAt(data[..n], n - 4) <==> n >= 4 && FindHeaderEnd(data) == Some(n - 4)
  {
    if n >= 4 && EndsAt(data[..n], n - 4) {
      assert EndsAt(data, n - 4);
    }
  }

  /** Copies exactly `expected` bytes, whatever pieces they come in, and reads no further. */
  method CopyExact(c: Connection, expected: U64) returns (r: Result<Bytes, ReadError>)
    requires c.Valid()
    modifies c`at, c`cuts
    ensures c.Valid()
    ensures r.Err? <==> |c.data| - old(c.at) < expected
    ensures r.Err? ==> r.error == InvalidResponse
    ensures r.Ok? ==> c.at == old(c.at) + expected && r.value == c.data[old(c.at)..c.at]
  {
    var remaining: nat, written: Bytes := expected, [];
    while remaining > 0
      invariant c.Valid() && c.at == old(c.at) + expected - remaining && remaining <= expected
      invariant written == c.data[old(c.at)..c.at]
    {
      ghost var before := c.at;
      var chunk := c.Read(Min(remaining, COPY_READ));
      Continue(c.data, old(c.at), before, c.at);
      if |chunk| == 0 {
        return Err(InvalidResponse);
      }
      written := written + chunk;
      remaining := SaturatingSub(remaining, |chunk|);
    }
    r := Ok(written);
  }
}
