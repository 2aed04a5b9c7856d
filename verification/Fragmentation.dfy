/** Whether the pieces a request arrives in matter
    (crates/syncer-agent/src/peer_server.rs:357-540; section 6 of RFC 9112). */
module Fragmentation {
  import opened Wrappers
  import opened Domain
  import opened HttpHead
  import opened Framing

  /** The first blank line of `head` is its end, and `body` has the declared length. */
  ghost predicate WellFramed(head: Bytes, body: Bytes) {
    && |head| >= 4
    && FindHeaderEnd(head) == Some(|head| - 4)
    && (ParseHead(head[..|head| - 4]).Ok? ==> ParseHead(head[..|head| - 4]).value.contentLength == |body|)
  }

  /** What a request means, however it was cut up. */
  function Meaning(head: Bytes, body: Bytes): Result<Request, ServerError>
    requires |head| >= 4
  {
    match ParseHead(head[..|head| - 4])
    case Err(error) => Err(error)
    case Ok(h) =>
      if !Spools(h) && h.contentLength > MAX_MEMORY_BODY_BYTES then Err(RequestTooLarge)
      else Ok(Request(h, Spools(h), body))
  }

  /** The most the head loop can have buffered when it meets the end of the head. */
  function Overshoot(head: nat, rest: nat): nat {
    head + Min(rest, HEAD_READ - 1)
  }

  /** Single bytes `n` times, then as much as fits. */
  function Slow(n: nat): seq<nat> {
    if n == 0 then [] else [0] + Slow(n - 1)
  }

  lemma {:induction false} HeadLoop(data: Bytes, at: nat, cuts: seq<nat>, end: nat)
    requires FindHeaderEnd(data) == Some(end) && at < end + 4 <= |data|
    ensures var r := Buffered(data, at, cuts);
      && (r.Err? ==> r.error == RequestTooLarge && Overshoot(end + 4, |data| - (end + 4)) > MAX_HEADER_BYTES)
      && (r.Ok? ==> end + 4 <= r.value <= Overshoot(end + 4, |data| - (end + 4)))
    decreases |data| - at
  {
    hide FindHeaderEnd;
    var next := at + ReadSize(|data| - at, HEAD_READ, cuts);
    EndInPrefix(data, next);
    if next <= MAX_HEADER_BYTES && next < end + 4 {
      HeadLoop(data, next, NextCuts(cuts), end);
    }
  }

  /** One byte at a time the loop buffers exactly the head, unless it has a read left over. */
  lemma {:induction false} SlowHeadLoop(data: Bytes, at: nat, slow: nat, end: nat)
    requires FindHeaderEnd(data) == Some(end) && at < end + 4 <= |data|
    requires at + slow == end + 3 || at + slow == end + 4
    ensures var last := if at + slow == end + 4 then end + 4 else Overshoot(end + 4, |data| - (end + 4));
      Buffered(data, at, Slow(slow)) == if last > MAX_HEADER_BYTES then Err(RequestTooLarge) else Ok(last)
    decreases |data| - at
  {
    hide FindHeaderEnd;
    var next := at + ReadSize(|data| - at, HEAD_READ, Slow(slow));
    EndInPrefix(data, next);
    if slow > 0 {
      assert NextCuts(Slow(slow)) == Slow(slow - 1);
      if next <= MAX_HEADER_BYTES && next < end + 4 {
        SlowHeadLoop(data, next, slow - 1, end);
      }
    }
  }

  lemma EndOfWhole(head: Bytes, rest: Bytes)
    requires |head| >= 4 && FindHeaderEnd(head) == Some(|head| - 4)
    ensures FindHeaderEnd(head + rest) == Some(|head| - 4)
  {
    assert (head + rest)[..|head|] == head;
    EndInPrefix(head + rest, |head|);
    assert EndsAt(head + rest, |head| - 4);
  }

  /** What the server makes of a buffer that holds the whole head; `extra` follows the body. */
  lemma ReceivedWhole(head: Bytes, body: Bytes, extra: Bytes, n: nat)
    requires WellFramed(head, body) && |head| <= n <= |head + body + extra|
    ensures n <= |head + body| ==> Received(head + body + extra, n) == Meaning(head, body)
    ensures n > |head + body| && Meaning(head, body).Ok? ==>
      Received(head + body + extra, n) == Err(InvalidRequest)
  {
    hide ParseHead, FindHeaderEnd;
    var data := head + body + extra;
    EndOfWhole(head, body + extra);
    assert data == head + (body + extra);
    EndInPrefix(data, n);
    assert data[..|head| - 4] == head[..|head| - 4];
    if n <= |head + body| {
      var prefix, rest := data[|head|..n], data[n..];
      assert prefix + rest[..|body| - |prefix|] == body;
    }
  }

  /** Every way of cutting a well framed request into reads gives the same result,
      if and only if a read that meets the end of the head cannot overflow the buffer
      (or the request is too large in any case). In particular a head of at most
      12289 bytes is safe whatever the body. */
  lemma FramingIsIndependent(head: Bytes, body: Bytes)
    requires WellFramed(head, body)
    ensures (forall cuts :: ReadAs(head + body, cuts) == Meaning(head, body))
       <==> (|head| + Min(|body|, 4095) <= 16384 || Meaning(head, body) == Err(RequestTooLarge))
  {
    hide ParseHead, FindHeaderEnd, Received, Meaning, Buffered;
    var data := head + body;
    EndOfWhole(head, body);
    assert data + [] == data;
    if Overshoot(|head|, |body|) <= MAX_HEADER_BYTES || Meaning(head, body) == Err(RequestTooLarge) {
      forall cuts ensures ReadAs(data, cuts) == Meaning(head, body) {
        HeadLoop(data, 0, cuts, |head| - 4);
        if Buffered(data, 0, cuts).Ok? {
          ReceivedWhole(head, body, [], Buffered(data, 0, cuts).value);
        }
      }
    } else {
      SlowHeadLoop(data, 0, |head| - 1, |head| - 4);
      assert ReadAs(data, Slow(|head| - 1)) == Err(RequestTooLarge);
    }
  }

  /** Bytes after the body: they are ignored or refused depending on how the stream
      was cut up, exactly when they can arrive together with the head. */
  lemma TrailingBytesMatter(head: Bytes, body: Bytes, extra: Bytes)
    requires WellFramed(head, body) && Meaning(head, body).Ok?
    requires |head| + 4095 <= 16384
    ensures (forall cuts :: ReadAs(head + body + extra, cuts) == Meaning(head, body))
       <==> (extra == [] || |body| >= 4095)
    ensures ReadAs(head + body + extra, Slow(|head|)) == Meaning(head, body)
  {
    hide ParseHead, FindHeaderEnd, Received, Meaning, Buffered;
    var data := head + body + extra;
    assert data == head + (body + extra);
    EndOfWhole(head, body + extra);
    SlowHeadLoop(data, 0, |head|, |head| - 4);
    ReceivedWhole(head, body, extra, |head|);
    if extra == [] || |body| >= HEAD_READ - 1 {
      forall cuts ensures ReadAs(data, cuts) == Meaning(head, body) {
        HeadLoop(data, 0, cuts, |head| - 4);
        ReceivedWhole(head, body, extra, Buffered(data, 0, cuts).value);
      }
    } else {
      SlowHeadLoop(data, 0, |head| - 1, |head| - 4);
      ReceivedWhole(head, body, extra, Overshoot(|head|, |body| + |extra|));
      assert ReadAs(data, Slow(|head| - 1)) != Meaning(head, body);
    }
  }
}
