/** Decimal text of a natural number, as a format string prints it. */
module Decimal {
  import opened Wrappers

  predicate IsDigit(c: char) {
    '0' <= c <= '9'
  }

  function Digit(n: nat): char
    requires n < 10
  {
    '0' + n as char
  }

  function Text(n: nat): (r: string)
    ensures r != []
  {
    if n < 10 then [Digit(n)] else Text(n / 10) + [Digit(n % 10)]
  }

  lemma {:induction false} TextHasDigits(n: nat)
    ensures forall i :: 0 <= i < |Text(n)| ==> IsDigit(Text(n)[i])
    ensures '\n' !in Text(n)
  {
    if n >= 10 {
      TextHasDigits(n / 10);
    }
  }

  lemma LongTexts(n: nat)
    ensures |Text(n)| > 1 <==> n >= 10
  {
  }

  lemma {:induction false} TextInjective(m: nat, n: nat)
    requires Text(m) == Text(n)
    ensures m == n
  {
    var s, t := Text(m), Text(n);
    LongTexts(m);
    LongTexts(n);
    if m >= 10 {
      assert s[..|s| - 1] == Text(m / 10) && t[..|t| - 1] == Text(n / 10);
      assert s[|s| - 1] == Digit(m % 10) && t[|t| - 1] == Digit(n % 10);
      TextInjective(m / 10, n / 10);
    }
  }

  /** The value of a string of digits. */
  function Value(s: string): Option<nat> {
    if s == [] then Some(0)
    else
      match Value(s[..|s| - 1])
      case None => None
      case Some(v) =>
        var last := s[|s| - 1];
        if IsDigit(last) then Some(v * 10 + (last as int - '0' as int)) else None
  }

  /** Parsing as an unsigned integer of at most `max`: a plus sign is allowed. */
  function Parse(s: string, max: nat): Option<nat> {
    var digits := if |s| > 1 && s[0] == '+' then s[1..] else s;
    if digits == [] then None
    else
      match Value(digits)
      case None => None
      case Some(v) => if v <= max then Some(v) else None
  }

  lemma {:induction false} ValueOfText(n: nat)
    ensures Value(Text(n)) == Some(n) && Text(n)[0] != '+'
  {
    var s := Text(n);
    if n >= 10 {
      ValueOfText(n / 10);
      assert s[..|s| - 1] == Text(n / 10) && s[|s| - 1] == Digit(n % 10);
    } else {
      assert s[..0] == [];
    }
  }

  /** What is printed is read back, up to the width of the integer. */
  lemma ParseOfText(n: nat, max: nat)
    ensures Parse(Text(n), max) == if n <= max then Some(n) else None
  {
    ValueOfText(n);
  }

  function Zeros(k: nat): string {
    if k == 0 then "" else Zeros(k - 1) + "0"
  }

  /** The printed number, with any number of zeros before it. */
  ghost predicate IsNumeral(s: string, n: nat) {
    exists zeros: nat :: s == Zeros(zeros) + Text(n)
  }

  lemma LastDigit(s: string, c: char)
    ensures Value(s + [c]) == if Value(s).None? || !IsDigit(c) then None else Some(Value(s).value * 10 + (c as int - '0' as int))
  {
    var t := s + [c];
    assert t[..|t| - 1] == s;
  }

  lemma {:induction false} ValueOfZeros(zeros: nat)
    ensures Value(Zeros(zeros)) == Some(0)
  {
    if zeros != 0 {
      ValueOfZeros(zeros - 1);
      LastDigit(Zeros(zeros - 1), '0');
    }
  }

  lemma {:induction false} ValueOfNumeral(zeros: nat, n: nat)
    ensures Value(Zeros(zeros) + Text(n)) == Some(n)
    ensures Zeros(zeros) + Text(n) != "" && IsDigit((Zeros(zeros) + Text(n))[0])
  {
    hide Value;
    var last := Digit(n % 10);
    if n < 10 {
      ValueOfZeros(zeros);
      LastDigit(Zeros(zeros), last);
      ZerosStart(zeros);
    } else {
      ValueOfNumeral(zeros, n / 10);
      LastDigit(Zeros(zeros) + Text(n / 10), last);
      assert Zeros(zeros) + Text(n) == Zeros(zeros) + Text(n / 10) + [last];
    }
  }

  lemma ZerosStart(zeros: nat)
    ensures zeros != 0 ==> Zeros(zeros) != "" && Zeros(zeros)[0] == '0'
  {
  }

  lemma {:induction false} ValuedIsNumeral(s: string)
    requires s != "" && Value(s).Some?
    ensures IsNumeral(s, Value(s).value)
  {
    hide Value, IsDigit;
    var init, last := s[..|s| - 1], s[|s| - 1];
    assert s == init + [last];
    LastDigit(init, last);
    if init == "" {
      OneDigit(last);
      assert s == Zeros(0) + Text(Value(s).value);
    } else {
      ValuedIsNumeral(init);
      var zeros: nat :| init == Zeros(zeros) + Text(Value(init).value);
      OneMoreDigit(zeros, Value(init).value, last);
    }
  }

  lemma OneDigit(c: char)
    requires IsDigit(c)
    ensures Text(c as int - '0' as int) == [c] && Value("") == Some(0)
  {
  }

  lemma TextStep(n: nat, d: nat)
    requires n > 0 && d < 10
    ensures Text(n * 10 + d) == Text(n) + [Digit(d)]
  {
    assert (n * 10 + d) / 10 == n && (n * 10 + d) % 10 == d;
  }

  lemma NumeralBy(s: string, zeros: nat, n: nat)
    requires s == Zeros(zeros) + Text(n)
    ensures IsNumeral(s, n)
  {
    hide Zeros, Text;
  }

  lemma ZerosStep(zeros: nat)
    ensures Zeros(zeros + 1) == Zeros(zeros) + "0"
  {
  }

  lemma OneMoreDigit(zeros: nat, n: nat, c: char)
    requires IsDigit(c)
    ensures IsNumeral(Zeros(zeros) + Text(n) + [c], n * 10 + (c as int - '0' as int))
  {
    hide Text, Zeros, IsNumeral;
    var d := c as int - '0' as int;
    var all := Zeros(zeros) + Text(n) + [c];
    OneDigit(c);
    if n == 0 {
      OneDigit('0');
      ZerosStep(zeros);
      NumeralBy(all, zeros + 1, d);
    } else {
      TextStep(n, d);
      assert all == Zeros(zeros) + (Text(n) + [c]);
      NumeralBy(all, zeros, n * 10 + d);
    }
  }

  /** What is read is a printed number within the width, after zeros or a plus sign; nothing
      else is read. */
  lemma ParseExact(s: string, max: nat, n: nat)
    ensures Parse(s, max) == Some(n) <==>
      n <= max && (IsNumeral(s, n) || (s != "" && s[0] == '+' && IsNumeral(s[1..], n)))
  {
    hide Value, Text, Zeros;
    var digits := if |s| > 1 && s[0] == '+' then s[1..] else s;
    if digits != "" && Value(digits) == Some(n) {
      ValuedIsNumeral(digits);
    }
    if zeros: nat :| s == Zeros(zeros) + Text(n) {
      ValueOfNumeral(zeros, n);
    }
    if s != "" && s[0] == '+' && IsNumeral(s[1..], n) {
      var zeros: nat :| s[1..] == Zeros(zeros) + Text(n);
      ValueOfNumeral(zeros, n);
    }
  }
}
