/** Reading a request from a connection that delivers its bytes in arbitrary pieces
    (crates/syncer-agent/src/peer_server.rs:357-540, 553-555). */
module Framing {
  import opened Wrappers
  import opened Domain
  import opened HttpHead

  const MAX_HEADER_BYTES: nat := 16 * 1024
  const MAX_MEMORY_BODY_BYTES: nat := 1024 * 1024
  const HEAD_READ: nat := 4096
  const MEMORY_READ: nat := 4096
  const FILE_READ: nat := 64 * 1024

  datatype Request = Request(head: Head, spooled: bool, body: Bytes)

  const END: Bytes := [13, 10, 13, 10]

  // ------------------------------------------------------------------
  // Pieces
  // ------------------------------------------------------------------

  /** How much one read delivers out of `left` bytes: at least one when there is
      any, at most `max`, and no more than the first of the `cuts`. */
  function ReadSize(left: nat, max: nat, cuts: seq<nat>): nat {
    if cuts == [] then Min(left, max) else Min(Min(left, max), cuts[0] + 1)
  }

  function NextCuts(cuts: seq<nat>): seq<nat> {
    if cuts == [] then [] else cuts[1..]
  }

  /** All a peer sends before it closes, how much of it was read, and how the rest is cut up. */
  class Connection {
    var data: Bytes
    var at: nat
    var cuts: seq<nat>

    predicate Valid()
      reads this
    {
      at <= |data|
    }

    method Read(max: nat) returns (chunk: Bytes)
      requires Valid()
      modifies this`at, this`cuts
      ensures Valid()
      ensures at == old(at) + ReadSize(|data| - old(at), max, old(cuts)) && chunk == data[old(at)..at]
      ensures cuts == NextCuts(old(cuts))
    {
      var n := ReadSize(|data| - at, max, cuts);
      chunk := data[at..at + n];
      at := at + n;
      cuts := NextCuts(cuts);
    }
  }

  // ------------------------------------------------------------------
  // The end of the head
  // ------------------------------------------------------------------

  predicate EndsAt(b: Bytes, i: nat) {
    i + 4 <= |b| && b[i] == 13 && b[i + 1] == 10 && b[i + 2] == 13 && b[i + 3] == 10
  }

  function EndFrom(b: Bytes, i: nat): (r: Option<nat>)
    ensures r.Some? ==> i <= r.value && EndsAt(b, r.value) && forall j :: i <= j < r.value ==> !EndsAt(b, j)
    ensures r.None? ==> forall j :: i <= j ==> !EndsAt(b, j)
    decreases |b| - i
  {
    if i + 4 > |b| then None else if EndsAt(b, i) then Some(i) else EndFrom(b, i + 1)
  }

  function FindHeaderEnd(b: Bytes): Option<nat> {
    EndFrom(b, 0)
  }

  /** A prefix shows the end of the head exactly when it is long enough. */
  lemma EndInPrefix(data: Bytes, n: nat)
    requires n <= |data|
    ensures var e := FindHeaderEnd(data);
      FindHeaderEnd(data[..n]) == if e.Some? && e.value + 4 <= n then e else None
  {
    var e, f := FindHeaderEnd(data), FindHeaderEnd(data[..n]);
    if f.Some? {
      assert EndsAt(data, f.value);
      if e.value < f.value {
        assert EndsAt(data[..n], e.value);
      }
    } else if e.Some? && e.value + 4 <= n {
      assert EndsAt(data[..n], e.value);
    }
  }

  // ------------------------------------------------------------------
  // What a request reads as
  // ------------------------------------------------------------------

  /** How many bytes are in the buffer when the head loop stops, from `at` on. */
  function Buffered(data: Bytes, at: nat, cuts: seq<nat>): (r: Result<nat, ServerError>)
    requires at <= |data|
    ensures r.Ok? ==> at <= r.value <= |data|
    decreases |data| - at
  {
    if at == |data| then Ok(at)
    else
      var next := at + ReadSize(|data| - at, HEAD_READ, cuts);
      if next > MAX_HEADER_BYTES then Err(RequestTooLarge)
      else if FindHeaderEnd(data[..next]).Some? then Ok(next)
      else Buffered(data, next, NextCuts(cuts))
  }

  /** A body of `length` bytes of which `prefix` came with the head and `rest` may follow. */
  function Body(prefix: Bytes, rest: Bytes, length: nat): Result<Bytes, ServerError> {
    if |prefix| > length || |prefix| + |rest| < length then Err(InvalidRequest)
    else Ok(prefix + rest[..length - |prefix|])
  }

  function Finish(head: Head, prefix: Bytes, rest: Bytes): Result<Request, ServerError> {
    if !Spools(head) && head.contentLength > MAX_MEMORY_BODY_BYTES then Err(RequestTooLarge)
    else
      match Body(prefix, rest, head.contentLength)
      case Err(error) => Err(error)
      case Ok(body) => Ok(Request(head, Spools(head), body))
  }

  function Received(data: Bytes, n: nat): Result<Request, ServerError>
    requires n <= |data|
  {
    match FindHeaderEnd(data[..n])
    case None => Err(InvalidRequest)
    case Some(end) =>
      match ParseHead(data[..end])
      case Err(error) => Err(error)
      case Ok(head) => Finish(head, data[end + 4..n], data[n..])
  }

  /** What the server makes of `data` when it arrives cut up by `cuts`. */
  function ReadAs(data: Bytes, cuts: seq<nat>): Result<Request, ServerError> {
    match Buffered(data, 0, cuts)
    case Err(error) => Err(error)
    case Ok(n) => Received(data, n)
  }

  /** A body that is not spooled may have a mebibyte. */
  lemma MemoryLimit(head: Head, body: Bytes)
    requires !Spools(head) && |body| == head.contentLength
    ensures Finish(head, body, []) == if |body| <= 1048576 then Ok(Request(head, false, body)) else Err(RequestTooLarge)
  {
    assert body + [] == body;
  }

  // ------------------------------------------------------------------
  // The read loops
  // ------------------------------------------------------------------

  lemma Continue(data: Bytes, i: nat, j: nat, k: nat)
    requires i <= j <= k <= |data|
    ensures data[i..j] + data[j..k] == data[i..k]
  {
  }

  lemma Within(data: Bytes, i: nat, n: nat)
    requires i + n <= |data|
    ensures data[i..][..n] == data[i..i + n]
  {
  }

  method ReadMemoryBody(c: Connection, prefix: Bytes, length: U64) returns (r: Result<Bytes, ServerError>)
    requires c.Valid()
    modifies c`at, c`cuts
    ensures c.Valid()
    ensures r == if length > MAX_MEMORY_BODY_BYTES then Err(RequestTooLarge)
                 else Body(prefix, old(c.data[c.at..]), length)
  {
    if length > MAX_MEMORY_BODY_BYTES {
      return Err(RequestTooLarge);
    }
    if |prefix| > length {
      return Err(InvalidRequest);
    }
    var body := prefix;
    while |body| < length
      invariant c.Valid() && |body| <= length && c.at >= old(c.at)
      invariant body == prefix + c.data[old(c.at)..c.at]
    {
      ghost var before := c.at;
      var chunk := c.Read(Min(length - |body|, MEMORY_READ));
      Continue(c.data, old(c.at), before, c.at);
      if |chunk| == 0 {
        return Err(InvalidRequest);
      }
      body := body + chunk;
    }
    Within(c.data, old(c.at), length - |prefix|);
    r := Ok(body);
  }

  /** The same with a file to write to and a counter of what was written. */
  method ReadFileBody(c: Connection, prefix: Bytes, length: U64) returns (r: Result<Bytes, ServerError>)
    requires c.Valid()
    modifies c`at, c`cuts
    ensures c.Valid()
    ensures r == Body(prefix, old(c.data[c.at..]), length)
  {
    if |prefix| > length {
      return Err(InvalidRequest);
    }
    var file: Bytes, written := [], 0;
    if |prefix| > 0 {
      file, written := file + prefix, |prefix|;
    }
    while written < length
      invariant c.Valid() && written == |file| <= length && c.at >= old(c.at)
      invariant file == prefix + c.data[old(c.at)..c.at]
    {
      ghost var before := c.at;
      var chunk := c.Read(Min(length - written, FILE_READ));
      Continue(c.data, old(c.at), before, c.at);
      if |chunk| == 0 {
        return Err(InvalidRequest);
      }
      file := file + chunk;
      written := written + |chunk|;
    }
    Within(c.data, old(c.at), length - |prefix|);
    r := Ok(file);
  }

  method ParseRequest(c: Connection, buffer: Bytes) returns (r: Result<Request, ServerError>)
    requires c.Valid() && buffer == c.data[..c.at]
    modifies c`at, c`cuts
    ensures r == Received(c.data, old(c.at))
  {
    hide ParseHead;
    var end := FindHeaderEnd(buffer);
    if end.None? {
      return Err(InvalidRequest);
    }
    assert buffer[..end.value] == c.data[..end.value];
    var parsed := ParseHead(buffer[..end.value]);
    if parsed.Err? {
      return Err(parsed.error);
    }
    var head, prefix := parsed.value, buffer[end.value + 4..];
    assert prefix == c.data[end.value + 4..c.at];
    var body;
    if Spools(head) {
      body := ReadFileBody(c, prefix, head.contentLength);
    } else {
      body := ReadMemoryBody(c, prefix, head.contentLength);
    }
    match body
    case Err(error) => r := Err(error);
    case Ok(bytes) => r := Ok(Request(head, Spools(head), bytes));
  }

  method ReadRequest(c: Connection) returns (r: Result<Request, ServerError>)
    requires c.Valid() && c.at == 0
    modifies c`at, c`cuts
    ensures r == ReadAs(c.data, old(c.cuts))
  {
    hide Received, FindHeaderEnd;
    var buffer: Bytes := [];
    while true
      invariant c.Valid() && buffer == c.data[..c.at]
      invariant Buffered(c.data, 0, old(c.cuts)) == Buffered(c.data, c.at, c.cuts)
      decreases |c.data| - c.at
    {
      var chunk := c.Read(HEAD_READ);
      if |chunk| == 0 {
        break;
      }
      buffer := buffer + chunk;
      assert buffer == c.data[..c.at];
      if |buffer| > MAX_HEADER_BYTES {
        return Err(RequestTooLarge);
      }
      if FindHeaderEnd(buffer).Some? {
        break;
      }
    }
    r := ParseRequest(c, buffer);
  }
}
