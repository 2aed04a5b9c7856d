/** UTF-8, as strict as `String::from_utf8`: no overlong forms, no surrogates. */
module Utf8 {
  import opened Wrappers
  import opened Domain

  function EncodeChar(c: char): (r: Bytes)
    ensures 1 <= |r| <= 4
  {
    var n := c as int;
    if n < 0x80 then [n]
    else if n < 0x800 then [0xC0 + n / 64, 0x80 + n % 64]
    else if n < 0x1_0000 then [0xE0 + n / 4096, 0x80 + n / 64 % 64, 0x80 + n % 64]
    else [0xF0 + n / 262144, 0x80 + n / 4096 % 64, 0x80 + n / 64 % 64, 0x80 + n % 64]
  }

  function Encode(s: string): Bytes {
    if s == [] then [] else EncodeChar(s[0]) + Encode(s[1..])
  }

  predicate IsContinuation(b: byte) {
    0x80 <= b < 0xC0
  }

  /** The six bits a continuation byte carries. */
  function Low(b: byte): int {
    b as int - 0x80
  }

  predicate IsScalar(n: int) {
    0 <= n < 0xD800 || 0xE000 <= n < 0x11_0000
  }

  /** The first character of `b` and how many bytes it takes. */
  function DecodeChar(b: Bytes): (r: Option<(char, nat)>)
    requires b != []
    ensures r.Some? ==> 1 <= r.value.1 <= |b|
  {
    if b[0] < 0x80 then Some((b[0] as char, 1))
    else if 0xC0 <= b[0] < 0xE0 then
      if |b| < 2 || !IsContinuation(b[1]) then None
      else
        var n: int := (b[0] as int - 0xC0) * 64 + Low(b[1]);
        if n < 0x80 then None else Some((n as char, 2))
    else if 0xE0 <= b[0] < 0xF0 then
      if |b| < 3 || !IsContinuation(b[1]) || !IsContinuation(b[2]) then None
      else
        var n: int := (b[0] as int - 0xE0) * 4096 + Low(b[1]) * 64 + Low(b[2]);
        if n < 0x800 || !IsScalar(n) then None else Some((n as char, 3))
    else if 0xF0 <= b[0] < 0xF8 then
      if |b| < 4 || !IsContinuation(b[1]) || !IsContinuation(b[2]) || !IsContinuation(b[3]) then None
      else
        var n: int := (b[0] as int - 0xF0) * 262144 + Low(b[1]) * 4096 + Low(b[2]) * 64 + Low(b[3]);
        if n < 0x1_0000 || !IsScalar(n) then None else Some((n as char, 4))
    else None
  }

  function Decode(b: Bytes): Option<string>
    decreases |b|
  {
    if b == [] then Some([])
    else match DecodeChar(b)
      case None => None
      case Some((c, n)) =>
        match Decode(b[n..])
        case None => None
        case Some(rest) => Some([c] + rest)
  }

  lemma Sextets(n: nat)
    ensures n == n / 64 * 64 + n % 64 && n / 4096 == n / 64 / 64 && n / 262144 == n / 64 / 64 / 64
    ensures n / 64 == n / 4096 * 64 + n / 64 % 64 && n / 4096 == n / 262144 * 64 + n / 4096 % 64
  {
    var a, b := n / 64, n / 64 / 64;
    assert n == a * 64 + n % 64 && a == b * 64 + a % 64 && b == b / 64 * 64 + b % 64;
  }

  lemma DecodeShortChar(c: char, rest: Bytes)
    requires c as int < 0x800
    ensures DecodeChar(EncodeChar(c) + rest) == Some((c, |EncodeChar(c)|))
  {
    var n := c as int;
    var b := EncodeChar(c) + rest;
    Sextets(n);
    if n < 0x80 {
      assert b[0] == n;
    } else {
      assert b[0] == 0xC0 + n / 64 && b[1] == 0x80 + n % 64;
    }
  }

  lemma DecodeLongChar(c: char, rest: Bytes)
    requires c as int >= 0x800
    ensures DecodeChar(EncodeChar(c) + rest) == Some((c, |EncodeChar(c)|))
  {
    var n := c as int;
    var b := EncodeChar(c) + rest;
    Sextets(n);
    if n < 0x1_0000 {
      assert b[0] == 0xE0 + n / 4096 && b[1] == 0x80 + n / 64 % 64 && b[2] == 0x80 + n % 64;
    } else {
      assert b[0] == 0xF0 + n / 262144 && b[1] == 0x80 + n / 4096 % 64 && b[2] == 0x80 + n / 64 % 64;
      assert b[3] == 0x80 + n % 64;
    }
  }

  /** Decoding undoes encoding. */
  lemma {:induction false} RoundTrip(s: string)
    ensures Decode(Encode(s)) == Some(s)
  {
    hide DecodeChar, EncodeChar;
    if s != [] {
      var head, rest := EncodeChar(s[0]), Encode(s[1..]);
      if s[0] as int < 0x800 {
        DecodeShortChar(s[0], rest);
      } else {
        DecodeLongChar(s[0], rest);
      }
      assert (head + rest)[|head|..] == rest;
      RoundTrip(s[1..]);
      assert s == [s[0]] + s[1..];
    }
  }

  lemma ShortCharExact(b: Bytes)
    requires b != [] && b[0] < 0xE0 && DecodeChar(b).Some?
    ensures EncodeChar(DecodeChar(b).value.0) == b[..DecodeChar(b).value.1]
  {
    if b[0] >= 0x80 {
      var n: int := (b[0] as int - 0xC0) * 64 + Low(b[1]);
      assert n / 64 == b[0] as int - 0xC0 && n % 64 == Low(b[1]);
    }
  }

  /** The sextets of a number that is put together from them. */
  lemma FromSextets(a: nat, b: nat, c: nat)
    requires b < 64 && c < 64
    ensures var n := (a * 64 + b) * 64 + c; n % 64 == c && n / 64 % 64 == b && n / 4096 == a && n / 64 == a * 64 + b
  {
    var m := a * 64 + b;
    assert m / 64 == a && m % 64 == b;
    assert (m * 64 + c) / 64 == m;
  }

  lemma ThreeByteCharExact(b: Bytes)
    requires b != [] && 0xE0 <= b[0] < 0xF0 && DecodeChar(b).Some?
    ensures EncodeChar(DecodeChar(b).value.0) == b[..DecodeChar(b).value.1]
  {
    FromSextets(b[0] as int - 0xE0, Low(b[1]), Low(b[2]));
  }

  lemma FourByteCharExact(b: Bytes)
    requires b != [] && b[0] >= 0xF0 && DecodeChar(b).Some?
    ensures EncodeChar(DecodeChar(b).value.0) == b[..DecodeChar(b).value.1]
  {
    var high := (b[0] as int - 0xF0) * 64 + Low(b[1]);
    FromSextets(high, Low(b[2]), Low(b[3]));
    var n := (high * 64 + Low(b[2])) * 64 + Low(b[3]);
    assert n == (b[0] as int - 0xF0) * 262144 + Low(b[1]) * 4096 + Low(b[2]) * 64 + Low(b[3]);
    assert high / 64 == b[0] as int - 0xF0 && high % 64 == Low(b[1]);
    assert n / 262144 == n / 4096 / 64;
  }

  lemma {:induction false} EncodedWasDecoded(b: Bytes)
    requires Decode(b).Some?
    ensures Encode(Decode(b).value) == b
    decreases |b|
  {
    hide DecodeChar, EncodeChar;
    if b != [] {
      var n := DecodeChar(b).value.1;
      if b[0] < 0xE0 {
        ShortCharExact(b);
      } else if b[0] < 0xF0 {
        ThreeByteCharExact(b);
      } else {
        FourByteCharExact(b);
      }
      EncodedWasDecoded(b[n..]);
      assert b == b[..n] + b[n..];
    }
  }

  /** Bytes decode to a text if and only if they are its encoding: no overlong form, no
      surrogate and no truncated one is accepted. */
  lemma DecodeExact(b: Bytes, s: string)
    ensures Decode(b) == Some(s) <==> b == Encode(s)
  {
    RoundTrip(s);
    if Decode(b).Some? {
      EncodedWasDecoded(b);
    }
  }

  /** One character of each length. */
  lemma FourLengths()
    ensures EncodeChar('A') == [0x41] && EncodeChar('\U{00E9}') == [0xC3, 0xA9]
    ensures EncodeChar('\U{20AC}') == [0xE2, 0x82, 0xAC] && EncodeChar('\U{1F600}') == [0xF0, 0x9F, 0x98, 0x80]
  {
  }

  predicate IsAscii(s: string) {
    forall i :: 0 <= i < |s| ==> s[i] as int < 0x80
  }

  /** ASCII text is its own encoding. */
  lemma {:induction false} EncodeAscii(s: string)
    requires IsAscii(s)
    ensures |Encode(s)| == |s| && forall i :: 0 <= i < |s| ==> Encode(s)[i] == s[i] as int
  {
    if s != [] {
      EncodeAscii(s[1..]);
      assert Encode(s) == [s[0] as int] + Encode(s[1..]);
    }
  }
}
