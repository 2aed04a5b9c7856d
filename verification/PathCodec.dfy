/** Percent-encoding of paths for the request line
    (crates/syncer-agent/src/path_codec.rs; sections 2.1 and 2.3 of RFC 3986). */
module PathCodec {
  import opened Wrappers
  import opened Domain
  import opened Text
  import RelativePaths
  import Utf8

  datatype PathDecodeError = InvalidPercentEncoding | InvalidUtf8 | Core(error: RelativePaths.PathError)

  /** Bytes that stand for themselves: unreserved characters and the separator. */
  predicate IsPlain(b: byte) {
    || 'A' as int <= b <= 'Z' as int || 'a' as int <= b <= 'z' as int || '0' as int <= b <= '9' as int
    || b == '-' as int || b == '.' as int || b == '_' as int || b == '~' as int || b == '/' as int
  }

  function HexDigit(n: int): char
    requires 0 <= n < 16
  {
    if n < 10 then '0' + n as char else 'A' + (n - 10) as char
  }

  function HexValue(b: byte): Option<int> {
    if '0' as int <= b <= '9' as int then Some(b - '0' as int)
    else if 'a' as int <= b <= 'f' as int then Some(b - 'a' as int + 10)
    else if 'A' as int <= b <= 'F' as int then Some(b - 'A' as int + 10)
    else None
  }

  function EncodeByte(b: byte): string {
    if IsPlain(b) then [b as char] else ['%', HexDigit(b / 16), HexDigit(b % 16)]
  }

  function EncodeBytes(bytes: Bytes): string {
    if bytes == [] then [] else EncodeByte(bytes[0]) + EncodeBytes(bytes[1..])
  }

  function EncodeRelativePath(path: Path): string {
    EncodeBytes(Utf8.Encode(path))
  }

  lemma {:induction false} EncodeAppend(bytes: Bytes, b: byte)
    ensures EncodeBytes(bytes + [b]) == EncodeBytes(bytes) + EncodeByte(b)
  {
    if bytes == [] {
      assert bytes + [b] == [b];
    } else {
      EncodeAppend(bytes[1..], b);
      assert (bytes + [b])[1..] == bytes[1..] + [b];
    }
  }

  method EncodePath(path: Path) returns (encoded: string)
    ensures encoded == EncodeRelativePath(path)
  {
    var bytes := Utf8.Encode(path);
    encoded := "";
    for i := 0 to |bytes|
      invariant encoded == EncodeBytes(bytes[..i])
    {
      EncodeAppend(bytes[..i], bytes[i]);
      assert bytes[..i + 1] == bytes[..i] + [bytes[i]];
      if IsPlain(bytes[i]) {
        encoded := encoded + [bytes[i] as char];
      } else {
        encoded := encoded + ['%', HexDigit(bytes[i] / 16), HexDigit(bytes[i] % 16)];
      }
    }
    assert bytes[..|bytes|] == bytes;
  }

  /** The bytes that `input` stands for. */
  function DecodeBytes(input: Bytes): Result<Bytes, PathDecodeError>
    decreases |input|
  {
    if input == [] then Ok([])
    else if input[0] == '%' as int then
      if |input| < 3 || HexValue(input[1]).None? || HexValue(input[2]).None? then Err(InvalidPercentEncoding)
      else Prepend(HexValue(input[1]).value * 16 + HexValue(input[2]).value, DecodeBytes(input[3..]))
    else Prepend(input[0], DecodeBytes(input[1..]))
  }

  function Prepend(b: byte, rest: Result<Bytes, PathDecodeError>): Result<Bytes, PathDecodeError> {
    match rest
    case Ok(bytes) => Ok([b] + bytes)
    case Err(error) => Err(error)
  }

  function DecodeRelativePath(value: string): Result<Path, PathDecodeError> {
    match DecodeBytes(Utf8.Encode(value))
    case Err(error) => Err(error)
    case Ok(bytes) =>
      match Utf8.Decode(bytes)
      case None => Err(InvalidUtf8)
      case Some(decoded) =>
        match RelativePaths.Parse(decoded)
        case Err(error) => Err(Core(error))
        case Ok(path) => Ok(path)
  }

  function Append(done: Bytes, rest: Result<Bytes, PathDecodeError>): Result<Bytes, PathDecodeError> {
    match rest
    case Ok(bytes) => Ok(done + bytes)
    case Err(error) => Err(error)
  }

  lemma AppendPrepend(done: Bytes, b: byte, rest: Result<Bytes, PathDecodeError>)
    ensures Append(done, Prepend(b, rest)) == Append(done + [b], rest)
    ensures Append([], rest) == rest && Append(done, Ok([])) == Ok(done)
  {
    assert rest.Ok? ==> done + ([b] + rest.value) == (done + [b]) + rest.value && [] + rest.value == rest.value;
    assert done + [] == done;
  }

  /** Walks the input with an index, pushing one decoded byte at a time. */
  method DecodePath(value: string) returns (r: Result<Path, PathDecodeError>)
    ensures r == DecodeRelativePath(value)
  {
    var input := Utf8.Encode(value);
    var bytes: Bytes, index: nat := [], 0;
    assert input[0..] == input;
    AppendPrepend([], 0, DecodeBytes(input));
    while index < |input|
      invariant index <= |input|
      invariant DecodeBytes(input) == Append(bytes, DecodeBytes(input[index..]))
    {
      ghost var rest := input[index..];
      var decoded: byte;
      if input[index] == '%' as int {
        if index + 2 >= |input| {
          return Err(InvalidPercentEncoding);
        }
        var high, low := HexValue(input[index + 1]), HexValue(input[index + 2]);
        assert rest[1] == input[index + 1] && rest[2] == input[index + 2];
        if high.None? || low.None? {
          return Err(InvalidPercentEncoding);
        }
        decoded := high.value * 16 + low.value;
        assert rest[3..] == input[index + 3..];
        index := index + 3;
      } else {
        decoded := input[index];
        assert rest[1..] == input[index + 1..];
        index := index + 1;
      }
      AppendPrepend(bytes, decoded, DecodeBytes(input[index..]));
      bytes := bytes + [decoded];
    }
    AppendPrepend(bytes, 0, Ok([]));
    assert DecodeBytes(input) == Ok(bytes);
    var text := Utf8.Decode(bytes);
    if text.None? {
      return Err(InvalidUtf8);
    }
    var parsed := RelativePaths.ParseRelativePath(text.value);
    match parsed
    case Err(error) => r := Err(Core(error));
    case Ok(path) => r := Ok(path);
  }

  // ------------------------------------------------------------------
  // Round trips
  // ------------------------------------------------------------------

  /** Characters an encoded path is made of. */
  predicate IsSafe(c: char) {
    c == '%' || (c as int < 0x80 && IsPlain(c as int))
  }

  lemma HexRoundTrip(n: int)
    requires 0 <= n < 16
    ensures IsSafe(HexDigit(n)) && HexValue(HexDigit(n) as int) == Some(n)
  {
  }

  lemma {:induction false} EncodedIsSafe(bytes: Bytes)
    ensures forall i :: 0 <= i < |EncodeBytes(bytes)| ==> IsSafe(EncodeBytes(bytes)[i])
  {
    if bytes != [] {
      EncodedIsSafe(bytes[1..]);
      HexRoundTrip(bytes[0] / 16);
      HexRoundTrip(bytes[0] % 16);
    }
  }

  function Codes(s: string): Bytes
    requires Utf8.IsAscii(s)
  {
    seq(|s|, i requires 0 <= i < |s| => s[i] as int)
  }

  /** One encoded byte at the front decodes to that byte. */
  lemma DecodesFirstByte(b: byte, rest: Bytes)
    ensures Utf8.IsAscii(EncodeByte(b))
    ensures DecodeBytes(Codes(EncodeByte(b)) + rest) == Prepend(b, DecodeBytes(rest))
  {
    var input := Codes(EncodeByte(b)) + rest;
    if IsPlain(b) {
      assert input[1..] == rest;
    } else {
      HexRoundTrip(b / 16);
      HexRoundTrip(b % 16);
      assert input[0] == '%' as int && input[1] == HexDigit(b / 16) as int && input[2] == HexDigit(b % 16) as int;
      assert input[3..] == rest;
      assert b == b / 16 * 16 + b % 16;
    }
  }

  /** The byte codec alone round-trips every byte string. */
  lemma {:induction false} BytesRoundTrip(bytes: Bytes)
    ensures Utf8.IsAscii(EncodeBytes(bytes))
    ensures DecodeBytes(Codes(EncodeBytes(bytes))) == Ok(bytes)
  {
    hide DecodeBytes, EncodeByte;
    if bytes == [] {
      DecodeNothing();
    } else {
      BytesRoundTrip(bytes[1..]);
      var head, rest := EncodeByte(bytes[0]), EncodeBytes(bytes[1..]);
      DecodesFirstByte(bytes[0], Codes(rest));
      assert Codes(head + rest) == Codes(head) + Codes(rest);
      assert bytes == [bytes[0]] + bytes[1..];
    }
  }

  lemma DecodeNothing()
    ensures Codes([]) == [] && DecodeBytes([]) == Ok([])
  {
  }

  /** Decoding an encoded path gives it back if and only if it has no white space
      at its ends; the codec itself loses nothing. */
  lemma PathRoundTrip(path: Path)
    requires RelativePaths.Canonical(path)
    ensures DecodeRelativePath(EncodeRelativePath(path)) == Ok(path) <==> Tidy(path)
  {
    var bytes := Utf8.Encode(path);
    var encoded := EncodeBytes(bytes);
    BytesRoundTrip(bytes);
    Utf8.EncodeAscii(encoded);
    assert Utf8.Encode(encoded) == Codes(encoded);
    Utf8.RoundTrip(path);
    RelativePaths.CanonicalParsesToItself(path);
  }

  // ------------------------------------------------------------------
  // What decoding accepts, and what encoding escapes
  // ------------------------------------------------------------------

  const UPPER_DIGITS := "0123456789ABCDEF"
  const LOWER_DIGITS := "0123456789abcdef"

  /** A digit has its value in either case; other bytes have none. */
  lemma HexExact(b: byte)
    ensures HexValue(b).Some? <==> exists v :: 0 <= v < 16 && (b == UPPER_DIGITS[v] as int || b == LOWER_DIGITS[v] as int)
    ensures HexValue(b).Some? ==>
      var v := HexValue(b).value; 0 <= v < 16 && (b == UPPER_DIGITS[v] as int || b == LOWER_DIGITS[v] as int)
  {
    if HexValue(b).Some? {
      var v := HexValue(b).value;
      assert 0 <= v < 16 && (b == UPPER_DIGITS[v] as int || b == LOWER_DIGITS[v] as int);
    }
  }

  /** Every percent sign that is met stands before two digits. */
  predicate WellEscaped(input: Bytes)
    decreases |input|
  {
    input == []
    || (if input[0] == '%' as int then |input| >= 3 && HexValue(input[1]).Some? && HexValue(input[2]).Some? && WellEscaped(input[3..])
        else WellEscaped(input[1..]))
  }

  /** Decoding the bytes fails if and only if some percent sign does not. */
  lemma {:induction false} DecodesIfWellEscaped(input: Bytes)
    ensures DecodeBytes(input).Ok? <==> WellEscaped(input)
    ensures DecodeBytes(input).Err? ==> DecodeBytes(input).error == InvalidPercentEncoding
    decreases |input|
  {
    hide HexValue;
    if input != [] {
      if input[0] != '%' as int {
        DecodesIfWellEscaped(input[1..]);
      } else if |input| >= 3 && HexValue(input[1]).Some? && HexValue(input[2]).Some? {
        DecodesIfWellEscaped(input[3..]);
      }
    }
  }

  /** What a request path says in plain text. */
  ghost predicate Says(value: string, text: string) {
    DecodeBytes(Utf8.Encode(value)) == Ok(Utf8.Encode(text))
  }

  /** A request path that says something decodes to what that parses to; and none with a
      component that leads upwards decodes, however it is escaped. */
  lemma DecodeExact(value: string, text: string)
    requires Says(value, text)
    ensures match RelativePaths.Parse(text)
      case Ok(path) => DecodeRelativePath(value) == Ok(path)
      case Err(error) => DecodeRelativePath(value) == Err(Core(error))
    ensures ".." in Split(Trim(text), '/') ==> DecodeRelativePath(value).Err?
  {
    hide RelativePaths.Parse, DecodeBytes;
    Utf8.RoundTrip(text);
    RelativePaths.ParseExact(text);
  }

  /** Whatever decodes says something. */
  lemma DecodedSays(value: string)
    requires DecodeRelativePath(value).Ok?
    ensures exists text :: Says(value, text)
  {
    hide RelativePaths.Parse, DecodeBytes;
    var bytes := DecodeBytes(Utf8.Encode(value)).value;
    Utf8.DecodeExact(bytes, Utf8.Decode(bytes).value);
    assert Says(value, Utf8.Decode(bytes).value);
  }

  /** An encoded text says that text. */
  lemma EncodedSays(text: string)
    ensures Says(EncodeRelativePath(text), text)
  {
    hide DecodeBytes;
    var encoded := EncodeBytes(Utf8.Encode(text));
    BytesRoundTrip(Utf8.Encode(text));
    Utf8.EncodeAscii(encoded);
    assert Utf8.Encode(encoded) == Codes(encoded);
  }

  /** Letters, digits, the four marks, and the separator (section 2.3 of RFC 3986). */
  predicate IsUnreserved(c: char) {
    'A' <= c <= 'Z' || 'a' <= c <= 'z' || '0' <= c <= '9' || c in {'-', '.', '_', '~', '/'}
  }

  lemma EncodeStep(bytes: Bytes)
    ensures EncodeBytes(bytes) == if bytes == [] then [] else EncodeByte(bytes[0]) + EncodeBytes(bytes[1..])
  {
  }

  lemma {:induction false} EncodeConcat(a: Bytes, b: Bytes)
    ensures EncodeBytes(a + b) == EncodeBytes(a) + EncodeBytes(b)
  {
    hide EncodeByte, EncodeBytes;
    EncodeStep(a);
    if a == [] {
      assert a + b == b;
    } else {
      EncodeConcat(a[1..], b);
      EncodeStep(a + b);
      assert (a + b)[1..] == a[1..] + b;
    }
  }

  lemma {:induction false} EncodedIsNoShorter(bytes: Bytes)
    ensures |EncodeBytes(bytes)| >= |bytes|
    ensures (exists i :: 0 <= i < |bytes| && !IsPlain(bytes[i])) ==> |EncodeBytes(bytes)| > |bytes|
  {
    if bytes != [] {
      EncodedIsNoShorter(bytes[1..]);
      if i :| 0 <= i < |bytes| && !IsPlain(bytes[i]) {
        assert i == 0 || bytes[1..][i - 1] == bytes[i];
      }
    }
  }

  lemma EncodedChar(c: char)
    ensures if IsUnreserved(c) then EncodeBytes(Utf8.EncodeChar(c)) == [c] else |EncodeBytes(Utf8.EncodeChar(c))| > 1
  {
    var b := Utf8.EncodeChar(c);
    EncodedIsNoShorter(b);
    if IsUnreserved(c) {
      assert b == [c as int] && b[1..] == [];
    } else if |b| == 1 {
      assert !IsPlain(b[0]);
    }
  }

  /** A path is sent as it is if and only if it is made of unreserved characters and
      separators; any other character makes it longer. */
  lemma {:induction false} EncodesToItself(path: Path)
    ensures |EncodeRelativePath(path)| >= |path|
    ensures if forall i :: 0 <= i < |path| ==> IsUnreserved(path[i]) then EncodeRelativePath(path) == path
            else |EncodeRelativePath(path)| > |path|
  {
    hide EncodeBytes, Utf8.EncodeChar, IsUnreserved;
    if path == [] {
      NothingEncodes();
    } else {
      EncodesToItself(path[1..]);
      EncodeConcat(Utf8.EncodeChar(path[0]), Utf8.Encode(path[1..]));
      EncodedChar(path[0]);
      assert path == [path[0]] + path[1..];
      assert (forall i :: 0 <= i < |path| ==> IsUnreserved(path[i]))
        <==> IsUnreserved(path[0]) && forall i :: 0 <= i < |path[1..]| ==> IsUnreserved(path[1..][i]);
    }
  }

  lemma NothingEncodes()
    ensures EncodeRelativePath("") == ""
  {
  }

  /** Any other character is escaped byte by byte, with upper-case digits. */
  lemma EscapedCharacters()
    ensures EncodeRelativePath(" ") == "%20" && EncodeRelativePath("%") == "%25" && EncodeRelativePath("\U{00EF}") == "%C3%AF"
  {
  }
}
