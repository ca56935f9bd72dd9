/**
 Numbers as text: `std::to_string` on an `unsigned`, `std::stoi` with base 0, and the widths of the
 integer types. Reading skips white space, takes a sign, and chooses the base by the prefix of what
 follows: hexadecimal after 0x with a digit, octal after another 0, and decimal otherwise. It takes the
 longest run of digits and ignores what comes behind; without a digit, or with a value outside `int`, it
 throws. A printed number has no leading zero and no sign, so it reads as decimal.
 */
module Numbers {
  import opened Wrappers
  import opened Strings

  const TWO31 := 0x8000_0000
  const TWO32 := 0x1_0000_0000

  /** `std::to_string` on an unsigned number. */
  function Decimal(n: nat): (s: string)
    ensures s != "" && forall i :: 0 <= i < |s| ==> '0' <= s[i] <= '9'
    ensures n > 0 ==> s[0] != '0'
  {
    if n < 10 then [DigitChar(n)] else Decimal(n / 10) + [DigitChar(n % 10)]
  }

  function DigitChar(d: nat): (c: char)
    requires d < 10
    ensures '0' <= c <= '9' && c as int == '0' as int + d
  {
    ('0' as int + d) as char
  }

  /** The value of a digit; 36 for what is not a digit in any base. */
  function DigitValue(c: char): nat {
    if '0' <= c <= '9' then c as int - '0' as int
    else if 'a' <= c <= 'z' then c as int - 'a' as int + 10
    else if 'A' <= c <= 'Z' then c as int - 'A' as int + 10
    else 36
  }

  predicate IsSpace(c: char) {
    c == ' ' || '\t' <= c <= '\r'
  }

  function SkipSpace(s: string): string {
    if s != "" && IsSpace(s[0]) then SkipSpace(s[1..]) else s
  }

  /** The value of the longest run of digits at the start of `s`, after digits worth `acc`. */
  function Digits(s: string, base: nat, acc: nat): nat {
    if s == "" || DigitValue(s[0]) >= base then acc else Digits(s[1..], base, acc * base + DigitValue(s[0]))
  }

  function RunOfDigits(s: string, base: nat): Option<nat> {
    if s == "" || DigitValue(s[0]) >= base then None else Some(Digits(s, base, 0))
  }

  /** The digits after the sign, in the base their prefix asks for. */
  function Magnitude(s: string): Option<nat> {
    if |s| >= 3 && s[0] == '0' && (s[1] == 'x' || s[1] == 'X') && DigitValue(s[2]) < 16 then RunOfDigits(s[2..], 16)
    else if s != "" && s[0] == '0' then RunOfDigits(s, 8)
    else RunOfDigits(s, 10)
  }

  function Signed(s: string): Option<int> {
    var negative := s != "" && s[0] == '-';
    var m := Magnitude(if s != "" && (s[0] == '-' || s[0] == '+') then s[1..] else s);
    if m.None? then None else
    var n: int := m.value;
    Some(if negative then -n else n)
  }

  /** `std::stoi(s, 0, 0)`: nothing when it throws, for no digits or for a value outside `int`. */
  function Stoi(s: string): (r: Option<int>)
    ensures r.Some? ==> -TWO31 <= r.value < TWO31
  {
    match Signed(SkipSpace(s))
    case Some(n) => if -TWO31 <= n < TWO31 then Some(n) else None
    case None => None
  }

  /** The cast of an `int` to `unsigned`. */
  function ToUnsigned(n: int): (r: nat)
    requires -TWO31 <= n < TWO31
    ensures r < TWO32 && (r - n) % TWO32 == 0
  {
    if n < 0 then n + TWO32 else n
  }

  // ---- Reading digits -----------------------------------------------------------------------------

  predicate AllDigits(s: string, base: nat) {
    forall i :: 0 <= i < |s| ==> DigitValue(s[i]) < base
  }

  lemma {:induction false} DigitsAppend(s: string, c: char, base: nat, acc: nat)
    requires AllDigits(s, base) && DigitValue(c) < base
    ensures Digits(s + [c], base, acc) == Digits(s, base, acc) * base + DigitValue(c)
  {
    if s == "" {
      assert (s + [c])[1..] == "";
    } else {
      assert (s + [c])[1..] == s[1..] + [c];
      DigitsAppend(s[1..], c, base, acc * base + DigitValue(s[0]));
    }
  }

  predicate Stops(s: string, base: nat) {
    s == "" || DigitValue(s[0]) >= base
  }

  lemma {:induction false} DigitsStop(s: string, rest: string, base: nat, acc: nat)
    requires AllDigits(s, base) && Stops(rest, base)
    ensures Digits(s + rest, base, acc) == Digits(s, base, acc)
  {
    if s == "" {
      assert s + rest == rest;
    } else {
      assert (s + rest)[1..] == s[1..] + rest;
      DigitsStop(s[1..], rest, base, acc * base + DigitValue(s[0]));
    }
  }

  /** The value of a numeral: its last digit counts once, and what is before it `base` times. */
  function Value(s: string, base: nat): nat {
    if s == "" then 0 else Value(s[..|s| - 1], base) * base + DigitValue(s[|s| - 1])
  }

  lemma {:induction false} DigitsValue(s: string, base: nat)
    requires AllDigits(s, base)
    ensures Digits(s, base, 0) == Value(s, base)
  {
    if s != "" {
      var front, c := s[..|s| - 1], s[|s| - 1];
      DigitsValue(front, base);
      DigitsAppend(front, c, base, 0);
      assert s == front + [c];
    }
  }

  lemma RunIs(digits: string, rest: string, base: nat)
    requires digits != "" && AllDigits(digits, base) && Stops(rest, base)
    ensures RunOfDigits(digits + rest, base) == Some(Value(digits, base))
  {
    DigitsStop(digits, rest, base, 0);
    DigitsValue(digits, base);
  }

  lemma {:induction false} SkipAll(blank: string, s: string)
    requires (forall i :: 0 <= i < |blank| ==> IsSpace(blank[i])) && (s == "" || !IsSpace(s[0]))
    ensures SkipSpace(blank + s) == s
  {
    if blank == "" {
      assert blank + s == s;
    } else {
      assert (blank + s)[1..] == blank[1..] + s;
      SkipAll(blank[1..], s);
    }
  }

  /** The base of a numeral: 16 after 0x or 0X, 8 after another 0, and 10 otherwise. */
  predicate InBase(prefix: string, digits: string, rest: string, base: nat) {
    && digits != "" && AllDigits(digits, base) && Stops(rest, base)
    && match base
       case 16 => prefix == "0x" || prefix == "0X"
       case 8 => prefix == "" && digits[0] == '0' && !HexFollows(digits, rest)
       case _ => base == 10 && prefix == "" && digits[0] != '0'
  }

  /** The zero is that of a 0x with a digit behind it. */
  predicate HexFollows(digits: string, rest: string) {
    |digits| == 1 && |rest| >= 2 && (rest[0] == 'x' || rest[0] == 'X') && DigitValue(rest[1]) < 16
  }

  lemma MagnitudeIs(prefix: string, digits: string, rest: string, base: nat)
    requires InBase(prefix, digits, rest, base)
    ensures Magnitude(prefix + digits + rest) == Some(Value(digits, base))
  {
    var s := prefix + digits + rest;
    RunIs(digits, rest, base);
    if base == 16 {
      assert s[2..] == digits + rest && s[0] == '0' && s[1] == prefix[1] && s[2] == digits[0];
    } else {
      assert s == digits + rest && s[0] == digits[0];
      if base == 8 { OctalStays(digits, rest); }
    }
  }

  lemma OctalStays(digits: string, rest: string)
    requires digits != "" && AllDigits(digits, 8) && !HexFollows(digits, rest)
    ensures var s := digits + rest; !(|s| >= 3 && (s[1] == 'x' || s[1] == 'X') && DigitValue(s[2]) < 16)
  {
    if |digits| == 1 { assert forall i :: 0 <= i < |rest| ==> (digits + rest)[i + 1] == rest[i]; }
  }

  lemma SignedIs(sign: string, body: string)
    requires sign == "" || sign == "+" || sign == "-"
    requires body != "" && body[0] != '+' && body[0] != '-'
    ensures Signed(sign + body) == match Magnitude(body)
      case Some(m) => var n: int := m; Some(if sign == "-" then -n else n)
      case None => None
  {
    var s := sign + body;
    if sign == "" { assert s == body; } else { assert s[0] == sign[0] && s[1..] == body; }
  }

  /** Reading a text: white space, a sign, a numeral in the base of its prefix, and anything that does not go on
      with it. It throws exactly when the value is outside `int`. */
  lemma StoiNumeral(blank: string, sign: string, prefix: string, digits: string, rest: string, base: nat)
    requires forall i :: 0 <= i < |blank| ==> blank[i] as int == 32 || 9 <= blank[i] as int <= 13
    requires sign == "" || sign == "+" || sign == "-"
    requires InBase(prefix, digits, rest, base)
    ensures var v: int := Value(digits, base);
      var n := if sign == "-" then -v else v;
      Stoi(blank + (sign + (prefix + digits + rest))) == if -TWO31 <= n < TWO31 then Some(n) else None
  {
    var body := prefix + digits + rest;
    assert body[0] == if prefix == "" then digits[0] else '0';
    SkipAll(blank, sign + body);
    SignedIs(sign, body);
    MagnitudeIs(prefix, digits, rest, base);
  }

  /** A text without a digit behind its white space and sign makes it throw. */
  lemma StoiNothing(blank: string, sign: string, rest: string)
    requires forall i :: 0 <= i < |blank| ==> blank[i] as int == 32 || 9 <= blank[i] as int <= 13
    requires sign == "" || sign == "+" || sign == "-"
    requires rest != "" ==> DigitValue(rest[0]) >= 10 && (sign == "" ==> !IsSpace(rest[0]) && rest[0] !in "+-")
    ensures Stoi(blank + (sign + rest)) == None
  {
    var s := sign + rest;
    SkipAll(blank, s);
    if sign == "" { assert s == rest; } else { assert s[1..] == rest; }
  }

  /** The 36 digits are '0' to '9' and then the letters, small or capital; nothing else is a digit. */
  lemma DigitIff(c: char, d: nat)
    requires d < 36
    ensures DigitValue(c) == d <==>
      if d < 10 then c as int == 48 + d else c as int == 87 + d || c as int == 55 + d
  {
  }

  lemma OneDigit(c: char, base: nat)
    ensures Value([c], base) == DigitValue(c)
  {
    assert [c][..0] == "";
  }

  lemma TwoDigits(c: char, d: char, base: nat)
    ensures Value([c, d], base) == DigitValue(c) * base + DigitValue(d)
  {
    assert [c, d][..1] == [c];
    OneDigit(c, base);
  }

  lemma ThreeDigits(b: char, c: char, d: char, base: nat)
    ensures Value([b, c, d], base) == (DigitValue(b) * base + DigitValue(c)) * base + DigitValue(d)
  {
    assert [b, c, d][..2] == [b, c];
    TwoDigits(b, c, base);
  }

  predicate OctalDigit(c: char) {
    '0' <= c <= '7'
  }

  /** Two digits after 0x. */
  lemma HexByHand(c: char, d: char)
    requires OctalDigit(c) && OctalDigit(d)
    ensures Stoi("0x" + [c, d]) == Some(16 * (c as int - 48) + (d as int - 48))
  {
    var digits := [c, d];
    TwoDigits(c, d, 16);
    assert AllDigits(digits, 16);
    StoiNumeral("", "", "0x", digits, "", 16);
    Unpadded("", "0x", digits);
  }

  /** Two digits after a zero: they are octal. */
  lemma OctalByHand(c: char, d: char)
    requires OctalDigit(c) && OctalDigit(d)
    ensures Stoi(['0', c, d]) == Some(8 * (c as int - 48) + (d as int - 48))
  {
    ThreeDigits('0', c, d, 8);
    StoiNumeral("", "", "", ['0', c, d], "", 8);
    Unpadded("", "", ['0', c, d]);
  }

  /** A number below zero; the cast to `unsigned` then counts down from 2^32. */
  lemma NegativeByHand(c: char)
    requires OctalDigit(c) && c != '0'
    ensures Stoi("-" + [c]) == Some(48 - c as int) && ToUnsigned(48 - c as int) == TWO32 + 48 - c as int
  {
    OneDigit(c, 10);
    StoiNumeral("", "-", "", [c], "", 10);
    Unpadded("-", "", [c]);
  }

  lemma Unpadded(sign: string, prefix: string, digits: string)
    ensures "" + (sign + (prefix + digits + "")) == sign + (prefix + digits)
    ensures prefix == "" ==> prefix + digits == digits
    ensures sign == "" ==> sign + (prefix + digits) == prefix + digits
  {
  }

  lemma {:induction false} DigitsOfDecimal(n: nat)
    ensures Digits(Decimal(n), 10, 0) == n
  {
    if n < 10 {
      assert Decimal(n)[1..] == "";
    } else {
      DigitsOfDecimal(n / 10);
      DigitsAppend(Decimal(n / 10), DigitChar(n % 10), 10, 0);
    }
  }

  lemma ZeroMagnitude()
    ensures Magnitude(Decimal(0)) == Some(0)
  {
    assert Decimal(0) == ['0'] && Decimal(0)[1..] == "";
  }

  /** A printed number reads back, unless it is too big for an `int`: then reading throws. */
  lemma StoiDecimal(n: nat)
    ensures Stoi(Decimal(n)) == if n < TWO31 then Some(n) else None
  {
    var s := Decimal(n);
    assert '0' <= s[0] <= '9' && SkipSpace(s) == s;
    DigitsOfDecimal(n);
    if n == 0 { ZeroMagnitude(); } else { assert Magnitude(s) == Some(n); }
  }
}
