/** The chunked file cipher and its length arithmetic
    (crates/syncer-agent/src/peer_crypto.rs). */
module PeerCrypto {
  import opened Wrappers
  import opened Domain
  import opened Text
  import Decimal

  const CHUNK_SIZE: nat := 64 * 1024
  const TAG_SIZE: nat := 16
  const NONCE_PREFIX_BYTES: nat := 16

  type NoncePrefix = b: Bytes | |b| == NONCE_PREFIX_BYTES witness [0, 0, 0, 0, 0, 0, 0, 0, 0, 0, 0, 0, 0, 0, 0, 0]

  /** An AEAD with detached tags (section 2 of RFC 5116) under one derived key:
      `seal(nonce, aad, plaintext)` is ciphertext and tag, `open` its inverse. */
  datatype Aead = Aead(
    seal: (Bytes, string, Bytes) -> (Bytes, Bytes),
    open: (Bytes, string, Bytes, Bytes) -> Option<Bytes>)
  {
    /** A stream cipher with an appended tag: ciphertexts keep their length, tags
        have 16 bytes, and `open` accepts exactly what `seal` makes. */
    ghost predicate Correct() {
      && (forall n, a, p :: |seal(n, a, p).0| == |p| && |seal(n, a, p).1| == TAG_SIZE)
      && (forall n, a, p :: open(n, a, seal(n, a, p).0, seal(n, a, p).1) == Some(p))
      && (forall n, a, c, t :: open(n, a, c, t).Some? ==> seal(n, a, open(n, a, c, t).value) == (c, t))
    }
  }

  datatype FileCipherContext = FileCipherContext(direction: string, path: Path, contentHash: string, plaintextSize: U64)

  // ------------------------------------------------------------------
  // Lengths
  // ------------------------------------------------------------------

  function ChunkCount(n: nat): nat {
    if n == 0 then 1 else (n + CHUNK_SIZE - 1) / CHUNK_SIZE
  }

  function EncryptedLen(n: U64): (r: U64)
    ensures n <= r
  {
    SaturatingAdd(n, Min(ChunkCount(n) * TAG_SIZE, U64_MAX))
  }

  lemma ChunkCountMonotone(m: nat, n: nat)
    requires m <= n
    ensures ChunkCount(m) <= ChunkCount(n)
  {
  }

  lemma ChunkCountStep(n: nat)
    ensures n <= CHUNK_SIZE ==> ChunkCount(n) == 1
    ensures n > CHUNK_SIZE ==> ChunkCount(n) == 1 + ChunkCount(n - CHUNK_SIZE)
  {
  }

  /** The length is exact, without saturation, if and only if it fits in 64 bits. */
  lemma EncryptedLenExact(n: U64)
    ensures EncryptedLen(n) == n + TAG_SIZE * ChunkCount(n) <==> n + TAG_SIZE * ChunkCount(n) <= U64_MAX
  {
  }

  /** A length check on either end admits exactly one plaintext size. */
  lemma LengthAdmitsOneSize(m: U64, n: U64)
    requires m + TAG_SIZE * ChunkCount(m) < U64_MAX
    ensures EncryptedLen(m) == EncryptedLen(n) <==> m == n
    ensures m < n ==> EncryptedLen(m) < EncryptedLen(n)
  {
    if m < n {
      ChunkCountMonotone(m, n);
    } else if n < m {
      ChunkCountMonotone(n, m);
    }
  }

  /** At the top of the range the saturated length no longer tells sizes apart. */
  lemma SaturatedLengthsCollide()
    ensures EncryptedLen(U64_MAX) == EncryptedLen(U64_MAX - 1)
  {
  }

  /** No file on disk is that long. */
  lemma FilesNeverSaturate(n: nat)
    requires n <= I64_MAX
    ensures n + TAG_SIZE * ChunkCount(n) < U64_MAX
  {
  }

  // ------------------------------------------------------------------
  // Nonces and associated data
  // ------------------------------------------------------------------

  /** `u64::to_be_bytes`: the last `width` base-256 digits, most significant first. */
  function BigEndian(n: nat, width: nat): (r: Bytes)
    ensures |r| == width
  {
    if width == 0 then [] else BigEndian(n / 256, width - 1) + [n % 256]
  }

  function Power256(width: nat): (r: nat)
    ensures r > 0
  {
    if width == 0 then 1 else 256 * Power256(width - 1)
  }

  lemma {:induction false} BigEndianInjective(m: nat, n: nat, width: nat)
    requires m < Power256(width) && n < Power256(width)
    requires BigEndian(m, width) == BigEndian(n, width)
    ensures m == n
  {
    if width != 0 {
      var a, b := BigEndian(m, width), BigEndian(n, width);
      assert a[..width - 1] == BigEndian(m / 256, width - 1) && b[..width - 1] == BigEndian(n / 256, width - 1);
      assert a[width - 1] == m % 256 && b[width - 1] == n % 256;
      BigEndianInjective(m / 256, n / 256, width - 1);
    }
  }

  function ChunkNonce(prefix: NoncePrefix, index: nat): (r: Bytes)
    ensures |r| == 24
  {
    prefix + BigEndian(index, 8)
  }

  /** Section 3.2 of RFC 5116: a fixed field and a counter never repeat a nonce. */
  lemma ChunkNonceInjective(prefix: NoncePrefix, i: U64, prefix': NoncePrefix, j: U64)
    ensures ChunkNonce(prefix, i) == ChunkNonce(prefix', j) <==> prefix == prefix' && i == j
  {
    if ChunkNonce(prefix, i) == ChunkNonce(prefix', j) {
      assert prefix == ChunkNonce(prefix, i)[..16] && prefix' == ChunkNonce(prefix', j)[..16];
      assert BigEndian(i, 8) == ChunkNonce(prefix, i)[16..] && BigEndian(j, 8) == ChunkNonce(prefix', j)[16..];
      assert Power256(8) == U64_MAX + 1 by {
        assert Power256(2) == 0x1_0000 && Power256(4) == 0x1_0000_0000 && Power256(6) == 0x1_0000_0000_0000;
      }
      BigEndianInjective(i, j, 8);
    }
  }

  function ChunkAad(context: FileCipherContext, index: nat): string {
    context.direction + "\n" + context.path + "\n" + context.contentHash + "\n" +
    Decimal.Text(context.plaintextSize) + "\n" + Decimal.Text(index)
  }

  /** The direction is a fixed word and the hash is hexadecimal: neither has a line feed. */
  predicate WellFormedContext(context: FileCipherContext) {
    '\n' !in context.direction && '\n' !in context.contentHash
  }

  lemma FirstFeed(a: string, x: string)
    requires '\n' !in a
    ensures var s := a + "\n" + x; s[|a|] == '\n' && forall i :: 0 <= i < |a| ==> s[i] != '\n'
  {
    forall i | 0 <= i < |a| ensures (a + "\n" + x)[i] != '\n' {
      assert (a + "\n" + x)[i] == a[i];
    }
  }

  lemma LastFeed(x: string, a: string)
    requires '\n' !in a
    ensures var s := x + "\n" + a; s[|x|] == '\n' && forall i :: |x| < i < |s| ==> s[i] != '\n'
  {
    var s := x + "\n" + a;
    forall i | |x| < i < |s| ensures s[i] != '\n' {
      assert s[i] == a[i - |x| - 1];
    }
  }

  /** Two texts with one line feed between a feed-free head and any tail agree
      only piece by piece. */
  lemma HeadLineInjective(a: string, x: string, b: string, y: string)
    requires '\n' !in a && '\n' !in b && a + "\n" + x == b + "\n" + y
    ensures a == b && x == y
  {
    var s, t := a + "\n" + x, b + "\n" + y;
    FirstFeed(a, x);
    FirstFeed(b, y);
    assert |a| == |b|;
    assert a == s[..|a|] == t[..|b|] == b;
    assert x == s[|a| + 1..] == t[|b| + 1..] == y;
  }

  lemma LastLineInjective(x: string, a: string, y: string, b: string)
    requires '\n' !in a && '\n' !in b && x + "\n" + a == y + "\n" + b
    ensures a == b && x == y
  {
    var s, t := x + "\n" + a, y + "\n" + b;
    LastFeed(x, a);
    LastFeed(y, b);
    assert |x| == |y|;
    assert x == s[..|x|] == t[..|y|] == y;
    assert a == s[|x| + 1..] == t[|y| + 1..] == b;
  }

  /** The associated data fixes the whole context and the chunk index, even when
      the path contains line feeds. */
  lemma ChunkAadInjective(c: FileCipherContext, i: nat, d: FileCipherContext, j: nat)
    requires WellFormedContext(c) && WellFormedContext(d)
    ensures ChunkAad(c, i) == ChunkAad(d, j) <==> c == d && i == j
  {
    if ChunkAad(c, i) == ChunkAad(d, j) {
      Decimal.TextHasDigits(i);
      Decimal.TextHasDigits(j);
      Decimal.TextHasDigits(c.plaintextSize);
      Decimal.TextHasDigits(d.plaintextSize);
      var c3, d3 := c.direction + "\n" + c.path + "\n" + c.contentHash, d.direction + "\n" + d.path + "\n" + d.contentHash;
      var c4, d4 := c3 + "\n" + Decimal.Text(c.plaintextSize), d3 + "\n" + Decimal.Text(d.plaintextSize);
      LastLineInjective(c4, Decimal.Text(i), d4, Decimal.Text(j));
      LastLineInjective(c3, Decimal.Text(c.plaintextSize), d3, Decimal.Text(d.plaintextSize));
      LastLineInjective(c.direction + "\n" + c.path, c.contentHash, d.direction + "\n" + d.path, d.contentHash);
      HeadLineInjective(c.direction, c.path, d.direction, d.path);
      Decimal.TextInjective(i, j);
      Decimal.TextInjective(c.plaintextSize, d.plaintextSize);
    }
  }

  // ------------------------------------------------------------------
  // Whole files
  // ------------------------------------------------------------------

  /** The AEAD under the transfer key, and the nonce prefix of one encryption. */
  datatype Cipher = Cipher(aead: Aead, prefix: NoncePrefix)

  datatype EncryptedFile = EncryptedFile(ciphertext: Bytes, size: nat, digest: Digest)

  function SealChunk(cipher: Cipher, context: FileCipherContext, index: nat, plain: Bytes): Bytes
  {
    var (c, t) := cipher.aead.seal(ChunkNonce(cipher.prefix, index), ChunkAad(context, index), plain);
    c + t
  }

  /** The chunks of `content`, sealed in order and numbered from `index`: an
      empty content is one empty chunk. */
  function SealFrom(cipher: Cipher, context: FileCipherContext, content: Bytes, index: nat): Bytes
    decreases |content|
  {
    if |content| <= CHUNK_SIZE then
      SealChunk(cipher, context, index, content)
    else
      SealChunk(cipher, context, index, content[..CHUNK_SIZE])
      + SealFrom(cipher, context, content[CHUNK_SIZE..], index + 1)
  }

  function Encrypt(cipher: Cipher, context: FileCipherContext, content: Content): Result<EncryptedFile, CipherError>
  {
    if |content| != context.plaintextSize then Err(UnexpectedPlaintextSize)
    else Ok(EncryptedFile(SealFrom(cipher, context, content, 0), EncryptedLen(|content|), Blake3(content)))
  }

  /** One `read` into a chunk buffer: it fills the buffer unless the file ends. */
  function ReadChunk(content: Bytes, position: nat): Bytes
    requires position <= |content|
  {
    content[position..position + Min(CHUNK_SIZE, |content| - position)]
  }

  /** What is still to be written once `position` bytes have been read. */
  function Unwritten(cipher: Cipher, context: FileCipherContext, content: Bytes, position: nat, index: nat): Bytes
    requires position <= |content|
  {
    if index != 0 && position == |content| then []
    else SealFrom(cipher, context, content[position..], index)
  }

  lemma UnwrittenStep(cipher: Cipher, context: FileCipherContext, content: Bytes, position: nat, index: nat)
    requires position <= |content|
    requires index == 0 || position < |content|
    ensures var chunk := ReadChunk(content, position);
      Unwritten(cipher, context, content, position, index)
        == SealChunk(cipher, context, index, chunk)
         + Unwritten(cipher, context, content, position + |chunk|, index + 1)
  {
    var chunk, rest := ReadChunk(content, position), content[position..];
    if |rest| <= CHUNK_SIZE {
      assert chunk == rest;
    } else {
      assert chunk == rest[..CHUNK_SIZE] && rest[CHUNK_SIZE..] == content[position + |chunk|..];
    }
  }

  /** The encryptor goes by what it reads: chunk after chunk until a read
      returns nothing, with one empty chunk for an empty file. */
  method EncryptFile(cipher: Cipher, context: FileCipherContext, content: Content)
    returns (r: Result<EncryptedFile, CipherError>)
    ensures r == Encrypt(cipher, context, content)
  {
    hide ChunkNonce, ChunkAad;
    var output: Bytes, hashed: Bytes := [], [];
    var processed: nat, index: nat := 0, 0;
    assert content[0..] == content;
    ghost var whole := SealFrom(cipher, context, content, 0);
    while true
      invariant processed <= |content| && hashed == content[..processed]
      invariant index == 0 ==> processed == 0
      invariant output + Unwritten(cipher, context, content, processed, index) == whole
      decreases |content| - processed, index == 0
    {
      var chunk := ReadChunk(content, processed);
      if chunk == [] && (context.plaintextSize != 0 || index != 0) {
        assert processed == |content|;
        break;
      }
      UnwrittenStep(cipher, context, content, processed, index);
      processed := processed + |chunk|;
      hashed := hashed + chunk;
      output := output + SealChunk(cipher, context, index, chunk);
      index := index + 1;
      if chunk == [] {
        break;
      }
    }
    if processed != context.plaintextSize {
      return Err(UnexpectedPlaintextSize);
    }
    assert content[..processed] == content && output + [] == output;
    r := Ok(EncryptedFile(output, EncryptedLen(processed), Blake3(hashed)));
  }

  /** Puts the plaintext already written in front of what the rest yields. */
  function Prepend(done: Bytes, rest: Result<Bytes, CipherError>): Result<Bytes, CipherError> {
    match rest
    case Ok(bytes) => Ok(done + bytes)
    case Err(error) => Err(error)
  }

  lemma PrependLaws(a: Bytes, b: Bytes, rest: Result<Bytes, CipherError>)
    ensures Prepend([], rest) == rest
    ensures Prepend(a, Prepend(b, rest)) == Prepend(a + b, rest)
    ensures Prepend(a, Ok([])) == Ok(a)
  {
    assert rest.Ok? ==> [] + rest.value == rest.value && a + (b + rest.value) == (a + b) + rest.value;
    assert a + [] == a;
  }

  /** Reads chunks numbered from `index` that hold `remaining` plaintext bytes,
      and nothing after them. */
  function OpenFrom(cipher: Cipher, context: FileCipherContext, input: Bytes, remaining: nat, index: nat)
    : Result<Bytes, CipherError>
    decreases remaining
  {
    var len := Min(remaining, CHUNK_SIZE);
    if |input| < len + TAG_SIZE then Err(UnexpectedEndOfFile)
    else
      match cipher.aead.open(ChunkNonce(cipher.prefix, index), ChunkAad(context, index),
                             input[..len], input[len..len + TAG_SIZE])
      case None => Err(DecryptionFailed)
      case Some(plain) =>
        if remaining <= CHUNK_SIZE then
          if |input| == len + TAG_SIZE then Ok(plain) else Err(TrailingCiphertext)
        else
          Prepend(plain, OpenFrom(cipher, context, input[len + TAG_SIZE..], remaining - CHUNK_SIZE, index + 1))
  }

  function Decrypt(cipher: Cipher, context: FileCipherContext, input: Bytes): Result<Bytes, CipherError>
  {
    OpenFrom(cipher, context, input, context.plaintextSize, 0)
  }

  /** What opening the chunks from `index` on still has to yield. */
  function Unopened(cipher: Cipher, context: FileCipherContext, input: Bytes, position: nat, remaining: nat, index: nat)
    : Result<Bytes, CipherError>
    requires position <= |input|
  {
    if index != 0 && remaining == 0 then
      if position == |input| then Ok([]) else Err(TrailingCiphertext)
    else OpenFrom(cipher, context, input[position..], remaining, index)
  }

  lemma UnopenedStep(
    cipher: Cipher, context: FileCipherContext, input: Bytes, position: nat, remaining: nat, index: nat)
    requires position <= |input|
    requires index == 0 || remaining > 0
    ensures var len := Min(remaining, CHUNK_SIZE);
      var mid, next := position + len, position + len + TAG_SIZE;
      Unopened(cipher, context, input, position, remaining, index) ==
        if next > |input| then Err(UnexpectedEndOfFile)
        else
          match cipher.aead.open(ChunkNonce(cipher.prefix, index), ChunkAad(context, index),
                                 input[position..mid], input[mid..next])
          case None => Err(DecryptionFailed)
          case Some(plain) =>
            Prepend(plain, Unopened(cipher, context, input, next, SaturatingSub(remaining, len), index + 1))
  {
    var len := Min(remaining, CHUNK_SIZE);
    var rest := input[position..];
    if |rest| >= len + TAG_SIZE {
      var mid, next := position + len, position + len + TAG_SIZE;
      assert rest[..len] == input[position..mid] && rest[len..len + TAG_SIZE] == input[mid..next];
      assert rest[len + TAG_SIZE..] == input[next..];
      var unsealed := cipher.aead.open(ChunkNonce(cipher.prefix, index), ChunkAad(context, index),
                                       input[position..mid], input[mid..next]);
      if unsealed.Some? {
        PrependLaws(unsealed.value, [], Ok([]));
      }
    }
  }

  lemma ChunksLeft(size: nat, index: nat)
    ensures index < ChunkCount(size) <==> index == 0 || index * CHUNK_SIZE < size
    ensures SaturatingSub(size, (index + 1) * CHUNK_SIZE)
         == SaturatingSub(SaturatingSub(size, index * CHUNK_SIZE), Min(SaturatingSub(size, index * CHUNK_SIZE), CHUNK_SIZE))
  {
  }

  /** The decryptor goes by the declared size: `chunk_count` rounds, each of
      `min(remaining, CHUNK_SIZE)` bytes, then a check that nothing follows. */
  method DecryptFile(cipher: Cipher, context: FileCipherContext, input: Bytes) returns (r: Result<Bytes, CipherError>)
    ensures r == Decrypt(cipher, context, input)
  {
    var output: Bytes, position: nat, remaining: nat := [], 0, context.plaintextSize;
    assert input[0..] == input;
    PrependLaws([], [], Decrypt(cipher, context, input));
    for index := 0 to ChunkCount(context.plaintextSize)
      invariant position <= |input|
      invariant remaining == SaturatingSub(context.plaintextSize, index * CHUNK_SIZE)
      invariant Decrypt(cipher, context, input)
             == Prepend(output, Unopened(cipher, context, input, position, remaining, index))
    {
      ChunksLeft(context.plaintextSize, index);
      UnopenedStep(cipher, context, input, position, remaining, index);
      var len := Min(remaining, CHUNK_SIZE);
      if |input| - position < len + TAG_SIZE {
        return Err(UnexpectedEndOfFile);
      }
      var mid, next := position + len, position + len + TAG_SIZE;
      var unsealed := cipher.aead.open(ChunkNonce(cipher.prefix, index), ChunkAad(context, index),
                                       input[position..mid], input[mid..next]);
      if unsealed == None {
        return Err(DecryptionFailed);
      }
      PrependLaws(output, unsealed.value,
                  Unopened(cipher, context, input, next, SaturatingSub(remaining, len), index + 1));
      output := output + unsealed.value;
      position := next;
      remaining := SaturatingSub(remaining, len);
    }
    ChunksLeft(context.plaintextSize, ChunkCount(context.plaintextSize));
    PrependLaws(output, [], Ok([]));
    if position != |input| {
      return Err(TrailingCiphertext);
    }
    r := Ok(output);
  }

  lemma {:induction false} SealedLength(cipher: Cipher, context: FileCipherContext, content: Bytes, index: nat)
    requires cipher.aead.Correct()
    ensures |SealFrom(cipher, context, content, index)| == |content| + TAG_SIZE * ChunkCount(|content|)
    decreases |content|
  {
    ChunkCountStep(|content|);
    if |content| > CHUNK_SIZE {
      SealedLength(cipher, context, content[CHUNK_SIZE..], index + 1);
    }
  }

  /** The first ciphertext, its tag, and what follows them. */
  lemma SealedPieces(cipher: Cipher, context: FileCipherContext, plain: Bytes, index: nat)
    requires cipher.aead.Correct()
    ensures var input, len := SealFrom(cipher, context, plain, index), Min(|plain|, CHUNK_SIZE);
      var sealed := cipher.aead.seal(ChunkNonce(cipher.prefix, index), ChunkAad(context, index), plain[..len]);
      && |input| >= len + TAG_SIZE && input[..len] == sealed.0 && input[len..len + TAG_SIZE] == sealed.1
      && input[len + TAG_SIZE..] ==
           (if |plain| > CHUNK_SIZE then SealFrom(cipher, context, plain[CHUNK_SIZE..], index + 1) else [])
  {
    assert |plain| <= CHUNK_SIZE ==> plain[..|plain|] == plain;
  }

  lemma {:induction false} SealedOpens(cipher: Cipher, context: FileCipherContext, plain: Bytes, index: nat)
    requires cipher.aead.Correct()
    ensures OpenFrom(cipher, context, SealFrom(cipher, context, plain, index), |plain|, index) == Ok(plain)
    decreases |plain|
  {
    hide SealFrom, ChunkNonce, ChunkAad;
    SealedPieces(cipher, context, plain, index);
    if |plain| > CHUNK_SIZE {
      SealedOpens(cipher, context, plain[CHUNK_SIZE..], index + 1);
      assert plain == plain[..CHUNK_SIZE] + plain[CHUNK_SIZE..];
    } else {
      assert plain[..|plain|] == plain;
    }
  }

  lemma {:induction false} OpenedWasSealed(
    cipher: Cipher, context: FileCipherContext, input: Bytes, remaining: nat, index: nat)
    requires cipher.aead.Correct() && OpenFrom(cipher, context, input, remaining, index).Ok?
    ensures var plain := OpenFrom(cipher, context, input, remaining, index).value;
      |plain| == remaining && input == SealFrom(cipher, context, plain, index)
    decreases remaining
  {
    hide ChunkNonce, ChunkAad;
    var nonce, aad := ChunkNonce(cipher.prefix, index), ChunkAad(context, index);
    var len := Min(remaining, CHUNK_SIZE);
    var c, t, rest := input[..len], input[len..len + TAG_SIZE], input[len + TAG_SIZE..];
    assert input == c + t + rest;
    var head := cipher.aead.open(nonce, aad, c, t).value;
    assert cipher.aead.seal(nonce, aad, head) == (c, t);
    if remaining > CHUNK_SIZE {
      OpenedWasSealed(cipher, context, rest, remaining - CHUNK_SIZE, index + 1);
      var tail := OpenFrom(cipher, context, rest, remaining - CHUNK_SIZE, index + 1).value;
      assert (head + tail)[..CHUNK_SIZE] == head && (head + tail)[CHUNK_SIZE..] == tail;
    } else {
      assert input == c + t;
    }
  }

  /** Decrypting accepts exactly what encrypting under the same prefix and
      context makes, and gives the content back, at every length. */
  lemma DecryptInvertsEncrypt(cipher: Cipher, context: FileCipherContext, input: Bytes, content: Content)
    requires cipher.aead.Correct()
    ensures Decrypt(cipher, context, input) == Ok(content)
       <==> Encrypt(cipher, context, content).Ok? && Encrypt(cipher, context, content).value.ciphertext == input
  {
    if Decrypt(cipher, context, input).Ok? {
      OpenedWasSealed(cipher, context, input, context.plaintextSize, 0);
    }
    SealedOpens(cipher, context, content, 0);
  }

  lemma RoundTrip(cipher: Cipher, context: FileCipherContext, content: Content)
    requires cipher.aead.Correct() && context.plaintextSize == |content|
    ensures var e := Encrypt(cipher, context, content);
      && e.Ok? && e.value.digest == Blake3(content)
      && |e.value.ciphertext| == e.value.size == EncryptedLen(|content|)
      && Decrypt(cipher, context, e.value.ciphertext) == Ok(content)
  {
    SealedLength(cipher, context, content, 0);
    FilesNeverSaturate(|content|);
    EncryptedLenExact(|content|);
    DecryptInvertsEncrypt(cipher, context, Encrypt(cipher, context, content).value.ciphertext, content);
  }

  // ------------------------------------------------------------------
  // Nothing but the sender's chunks
  // ------------------------------------------------------------------

  datatype SentFile = SentFile(context: FileCipherContext, content: Bytes)

  function Offset(index: nat): nat {
    index * CHUNK_SIZE
  }

  /** `plain` under this nonce and associated data is a chunk the sender sealed. */
  ghost predicate SealedBySender(sent: map<NoncePrefix, SentFile>, nonce: Bytes, aad: string, plain: Bytes) {
    exists prefix: NoncePrefix, index: U64 ::
      && prefix in sent && Offset(index) <= |sent[prefix].content|
      && nonce == ChunkNonce(prefix, index)
      && aad == ChunkAad(sent[prefix].context, index)
      && plain == ReadChunk(sent[prefix].content, Offset(index))
  }

  /** Opens the piece of `input` between two positions, with its tag behind it. */
  function OpenPiece(aead: Aead, nonce: Bytes, aad: string, input: Bytes, lo: nat, mid: nat): Option<Bytes> {
    if lo <= mid && mid + TAG_SIZE <= |input| then aead.open(nonce, aad, input[lo..mid], input[mid..mid + TAG_SIZE])
    else None
  }

  /** The received bytes hold no forgery: a piece of them opens only as a chunk
      the sender sealed (section 2 of RFC 5116, authenticity). */
  ghost predicate NoForgery(aead: Aead, sent: map<NoncePrefix, SentFile>, input: Bytes) {
    forall nonce, aad, lo: nat, mid: nat :: OpenPiece(aead, nonce, aad, input, lo, mid).Some? ==>
      SealedBySender(sent, nonce, aad, OpenPiece(aead, nonce, aad, input, lo, mid).value)
  }

  /** The sender drew a distinct prefix for each file and stated its true size. */
  ghost predicate HonestLog(sent: map<NoncePrefix, SentFile>) {
    forall prefix :: prefix in sent ==>
      && WellFormedContext(sent[prefix].context)
      && sent[prefix].context.plaintextSize == |sent[prefix].content|
  }

  /** Everything a received file and its sender's log are assumed to satisfy. */
  ghost predicate Received(cipher: Cipher, context: FileCipherContext, sent: map<NoncePrefix, SentFile>, input: Bytes) {
    && cipher.aead.Correct() && WellFormedContext(context) && context.plaintextSize <= I64_MAX
    && HonestLog(sent) && NoForgery(cipher.aead, sent, input)
  }

  lemma OpenedChunkIsTheSenders(
    cipher: Cipher, context: FileCipherContext, sent: map<NoncePrefix, SentFile>, input: Bytes,
    lo: nat, mid: nat, index: nat)
    requires Received(cipher, context, sent, input)
    requires index <= U64_MAX
    requires OpenPiece(cipher.aead, ChunkNonce(cipher.prefix, index), ChunkAad(context, index), input, lo, mid).Some?
    ensures cipher.prefix in sent && sent[cipher.prefix].context == context
    ensures Offset(index) <= |sent[cipher.prefix].content|
    ensures OpenPiece(cipher.aead, ChunkNonce(cipher.prefix, index), ChunkAad(context, index), input, lo, mid).value
         == ReadChunk(sent[cipher.prefix].content, Offset(index))
  {
    var nonce, aad := ChunkNonce(cipher.prefix, index), ChunkAad(context, index);
    var plain := OpenPiece(cipher.aead, nonce, aad, input, lo, mid).value;
    assert SealedBySender(sent, nonce, aad, plain);
    var prefix: NoncePrefix, i: U64 :| prefix in sent && Offset(i) <= |sent[prefix].content|
      && nonce == ChunkNonce(prefix, i) && aad == ChunkAad(sent[prefix].context, i)
      && plain == ReadChunk(sent[prefix].content, Offset(i));
    ChunkNonceInjective(cipher.prefix, index, prefix, i);
    ChunkAadInjective(context, index, sent[prefix].context, i);
  }

  lemma OpenedStep(
    cipher: Cipher, context: FileCipherContext, input: Bytes, position: nat, remaining: nat, index: nat)
    requires position <= |input| && (index == 0 || remaining > 0)
    requires Unopened(cipher, context, input, position, remaining, index).Ok?
    ensures var len := Min(remaining, CHUNK_SIZE);
      var piece := OpenPiece(cipher.aead, ChunkNonce(cipher.prefix, index), ChunkAad(context, index),
                             input, position, position + len);
      && piece.Some? && position + len + TAG_SIZE <= |input|
      && var rest := Unopened(cipher, context, input, position + len + TAG_SIZE, remaining - len, index + 1);
         && rest.Ok?
         && Unopened(cipher, context, input, position, remaining, index).value == piece.value + rest.value
  {
    UnopenedStep(cipher, context, input, position, remaining, index);
  }

  lemma TailSplits(content: Bytes, index: nat)
    requires Offset(index) <= |content|
    ensures |content| - Offset(index) <= CHUNK_SIZE ==> content[Offset(index)..] == ReadChunk(content, Offset(index)) + []
    ensures |content| - Offset(index) > CHUNK_SIZE ==>
      && Offset(index + 1) == Offset(index) + CHUNK_SIZE
      && content[Offset(index)..] == ReadChunk(content, Offset(index)) + content[Offset(index + 1)..]
  {
  }

  /** The piece opened at `index` is that chunk of the file sent under the prefix. */
  lemma OpenedPieceIsTheSenders(
    cipher: Cipher, context: FileCipherContext, sent: map<NoncePrefix, SentFile>, input: Bytes,
    position: nat, remaining: nat, index: nat)
    requires Received(cipher, context, sent, input)
    requires position <= |input| && (index == 0 || remaining > 0) && index <= U64_MAX
    requires Unopened(cipher, context, input, position, remaining, index).Ok?
    ensures cipher.prefix in sent && sent[cipher.prefix].context == context
    ensures |sent[cipher.prefix].content| == context.plaintextSize && Offset(index) <= context.plaintextSize
    ensures var next := position + Min(remaining, CHUNK_SIZE) + TAG_SIZE;
      && next <= |input|
      && var rest := Unopened(cipher, context, input, next, remaining - Min(remaining, CHUNK_SIZE), index + 1);
         && rest.Ok?
         && Unopened(cipher, context, input, position, remaining, index).value
              == ReadChunk(sent[cipher.prefix].content, Offset(index)) + rest.value
  {
    hide ChunkNonce, ChunkAad, ReadChunk, Unopened, OpenPiece, NoForgery, WellFormedContext;
    OpenedStep(cipher, context, input, position, remaining, index);
    OpenedChunkIsTheSenders(cipher, context, sent, input, position, position + Min(remaining, CHUNK_SIZE), index);
  }

  lemma {:induction false} OpenedTailIsTheSenders(
    cipher: Cipher, context: FileCipherContext, sent: map<NoncePrefix, SentFile>, input: Bytes,
    position: nat, remaining: nat, index: nat)
    requires Received(cipher, context, sent, input)
    requires position <= |input| && (index == 0 || remaining > 0)
    requires Offset(index) + remaining == context.plaintextSize
    requires Unopened(cipher, context, input, position, remaining, index).Ok?
    ensures cipher.prefix in sent && sent[cipher.prefix].context == context
    ensures Unopened(cipher, context, input, position, remaining, index).value
         == sent[cipher.prefix].content[Offset(index)..]
    decreases remaining
  {
    hide ChunkNonce, ChunkAad, OpenPiece, NoForgery, WellFormedContext;
    OpenedPieceIsTheSenders(cipher, context, sent, input, position, remaining, index);
    TailSplits(sent[cipher.prefix].content, index);
    if remaining > CHUNK_SIZE {
      OpenedTailIsTheSenders(
        cipher, context, sent, input, position + CHUNK_SIZE + TAG_SIZE, remaining - CHUNK_SIZE, index + 1);
    }
  }

  /** A file that decrypts is one the sender encrypted, whole and in order, under
      the same prefix, direction, path, hash and size: no chunk is dropped,
      repeated, swapped or taken from another file. */
  lemma DecryptsOnlySentFiles(
    cipher: Cipher, context: FileCipherContext, sent: map<NoncePrefix, SentFile>, input: Bytes)
    requires Received(cipher, context, sent, input)
    requires Decrypt(cipher, context, input).Ok?
    ensures cipher.prefix in sent
    ensures sent[cipher.prefix] == SentFile(context, Decrypt(cipher, context, input).value)
    ensures SealFrom(cipher, context, sent[cipher.prefix].content, 0) == input
    ensures |input| == EncryptedLen(context.plaintextSize)
  {
    assert input[0..] == input;
    OpenedTailIsTheSenders(cipher, context, sent, input, 0, context.plaintextSize, 0);
    var content := sent[cipher.prefix].content;
    assert content[0..] == content;
    DecryptInvertsEncrypt(cipher, context, input, content);
    RoundTrip(cipher, context, content);
  }

  // ------------------------------------------------------------------
  // The assumptions can be met
  // ------------------------------------------------------------------

  /** Sixteen equal bytes. */
  function Tag(b: byte): (t: Bytes)
    ensures |t| == TAG_SIZE && forall i :: 0 <= i < |t| ==> t[i] == b
  {
    seq(TAG_SIZE, _ => b)
  }

  function Mark(marked: bool): (t: Bytes)
    ensures |t| == TAG_SIZE
  {
    if marked then Tag(1) else Tag(0)
  }

  /** An AEAD whose tag tells one chunk under one nonce from everything else. */
  function MarkingAead(nonce: Bytes, aad: string, plain: Bytes): Aead {
    Aead((n, a, p) => (p, Mark((n, a, p) == (nonce, aad, plain))),
         (n, a, c, t) => if t == Mark((n, a, c) == (nonce, aad, plain)) then Some(c) else None)
  }

  lemma MarkingCalls(nonce: Bytes, aad: string, plain: Bytes, n: Bytes, a: string, c: Bytes, t: Bytes)
    ensures var aead, mark := MarkingAead(nonce, aad, plain), Mark((n, a, c) == (nonce, aad, plain));
      aead.seal(n, a, c) == (c, mark) && aead.open(n, a, c, t) == if t == mark then Some(c) else None
  {
    hide Mark;
  }

  lemma MarkingIsCorrect(nonce: Bytes, aad: string, plain: Bytes)
    ensures MarkingAead(nonce, aad, plain).Correct()
  {
    hide Mark, MarkingAead;
    var aead := MarkingAead(nonce, aad, plain);
    forall n, a, p
      ensures |aead.seal(n, a, p).0| == |p| && |aead.seal(n, a, p).1| == TAG_SIZE
      ensures aead.open(n, a, aead.seal(n, a, p).0, aead.seal(n, a, p).1) == Some(p)
    {
      MarkingCalls(nonce, aad, plain, n, a, p, aead.seal(n, a, p).1);
    }
    forall n, a, c, t | aead.open(n, a, c, t).Some? ensures aead.seal(n, a, aead.open(n, a, c, t).value) == (c, t) {
      MarkingCalls(nonce, aad, plain, n, a, c, t);
    }
  }

  lemma OnlyTheMarkedOpens(nonce: Bytes, aad: string, b: byte, n: Bytes, a: string, lo: nat, mid: nat)
    requires OpenPiece(MarkingAead(nonce, aad, [b]), n, a, [b] + Tag(1), lo, mid).Some?
    ensures n == nonce && a == aad && OpenPiece(MarkingAead(nonce, aad, [b]), n, a, [b] + Tag(1), lo, mid).value == [b]
  {
    var input := [b] + Tag(1);
    var tag := input[mid..mid + TAG_SIZE];
    assert tag[1] == input[mid + 1] == 1;
    assert Tag(0)[1] == 0;
  }

  /** For every prefix and every file of one byte there are a cipher and a received file
      that meet all the assumptions, and the file decrypts. */
  lemma SomethingIsReceived(prefix: NoncePrefix, context: FileCipherContext, b: byte) returns (cipher: Cipher, input: Bytes)
    requires WellFormedContext(context) && context.plaintextSize == 1
    ensures cipher.prefix == prefix
    ensures Received(cipher, context, map[prefix := SentFile(context, [b])], input)
    ensures Decrypt(cipher, context, input) == Ok([b])
  {
    hide ChunkNonce, ChunkAad, WellFormedContext, OpenPiece, MarkingAead, SealFrom, OpenFrom;
    var nonce, aad := ChunkNonce(prefix, 0), ChunkAad(context, 0);
    var sent := map[prefix := SentFile(context, [b])];
    cipher, input := Cipher(MarkingAead(nonce, aad, [b]), prefix), [b] + Tag(1);
    MarkingIsCorrect(nonce, aad, [b]);
    SealedAsMarked(cipher, context, b);
    DecryptInvertsEncrypt(cipher, context, input, [b]);
    forall n, a, lo: nat, mid: nat | OpenPiece(cipher.aead, n, a, input, lo, mid).Some?
      ensures SealedBySender(sent, n, a, OpenPiece(cipher.aead, n, a, input, lo, mid).value)
    {
      OnlyTheMarkedOpens(nonce, aad, b, n, a, lo, mid);
      assert ReadChunk(sent[prefix].content, Offset(0)) == [b];
    }
  }

  lemma SealedAsMarked(cipher: Cipher, context: FileCipherContext, b: byte)
    requires cipher.aead == MarkingAead(ChunkNonce(cipher.prefix, 0), ChunkAad(context, 0), [b])
    ensures SealFrom(cipher, context, [b], 0) == [b] + Tag(1)
  {
    hide ChunkNonce, ChunkAad;
  }

  // ------------------------------------------------------------------
  // The layout in numbers
  // ------------------------------------------------------------------

  /** A file of 65537 bytes is sent as 65569: the first 65536 with their tag, then the last
      one with its own, numbered 0 and 1. */
  lemma TwoChunks(cipher: Cipher, context: FileCipherContext, content: Bytes)
    requires cipher.aead.Correct() && |content| == 65537
    ensures var sent := SealFrom(cipher, context, content, 0);
      && |sent| == 65569 == EncryptedLen(65537)
      && sent[..65552] == SealChunk(cipher, context, 0, content[..65536])
      && sent[65552..] == SealChunk(cipher, context, 1, content[65536..])
  {
    hide ChunkNonce, ChunkAad;
    var first, last := SealChunk(cipher, context, 0, content[..65536]), SealChunk(cipher, context, 1, content[65536..]);
    assert SealFrom(cipher, context, content[65536..], 1) == last;
    assert SealFrom(cipher, context, content, 0) == first + last;
    assert |first| == 65552 && |last| == 17;
  }

  /** The lengths at the chunk boundaries: an empty file is one tag. */
  lemma BoundaryLengths()
    ensures EncryptedLen(0) == 16 && EncryptedLen(1) == 17
    ensures EncryptedLen(65536) == 65552 && EncryptedLen(131072) == 131104 && EncryptedLen(131073) == 131121
  {
  }

  /** A nonce is the prefix and the number in eight bytes, the most significant first. */
  lemma NonceBytes(prefix: NoncePrefix)
    ensures ChunkNonce(prefix, 258) == prefix + [0, 0, 0, 0, 0, 0, 1, 2]
  {
    BigEndianStep(258, 8);
    BigEndianStep(1, 7);
    assert BigEndian(0, 6) == [0, 0, 0, 0, 0, 0] by {
      assert BigEndian(0, 3) == [0, 0, 0];
    }
  }

  lemma BigEndianStep(n: nat, width: nat)
    requires width > 0
    ensures BigEndian(n, width) == BigEndian(n / 256, width - 1) + [n % 256]
  {
  }

  /** The associated data of a chunk are five lines. */
  lemma AadLines(context: FileCipherContext, index: nat)
    ensures ChunkAad(context, index) ==
      Join([context.direction, context.path, context.contentHash, Decimal.Text(context.plaintextSize), Decimal.Text(index)], '\n')
  {
    hide Decimal.Text;
    var c, d, e := context.contentHash, Decimal.Text(context.plaintextSize), Decimal.Text(index);
    JoinStep(context.direction, [context.path, c, d, e]);
    JoinStep(context.path, [c, d, e]);
    JoinStep(c, [d, e]);
    JoinStep(d, [e]);
  }

  lemma JoinStep(first: string, rest: seq<string>)
    requires rest != []
    ensures Join([first] + rest, '\n') == first + "\n" + Join(rest, '\n')
  {
    assert ([first] + rest)[1..] == rest;
  }
}
