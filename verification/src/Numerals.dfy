/**
 Decimal text: printing with `%lld` / `{}`, reading with `strtoll` (section 7.22.1.4 of
 ISO/IEC 9899:2011) and with Zig's `std.fmt.parseInt`. One `char` stands for one byte.
 */
module Numerals {
  import opened Common

  predicate IsDigit(c: char) { '0' <= c <= '9' }

  /** C's `isspace` in the "C" locale. */
  predicate IsSpace(c: char) {
    c == ' ' || c == '\t' || c == '\n' || c == '\r' || c as int == 11 || c as int == 12
  }

  function DigitChar(d: nat): (c: char)
    requires d < 10
    ensures IsDigit(c)
  {
    '0' + d as char
  }

  function DigitValue(c: char): (d: nat)
    requires IsDigit(c)
  {
    c as int - '0' as int
  }

  predicate AllDigits(s: string) { forall i :: 0 <= i < |s| ==> IsDigit(s[i]) }

  /** Positional value of a string of digits. */
  function ValueOf(s: string): nat
    requires AllDigits(s)
  {
    if s == [] then 0 else 10 * ValueOf(s[..|s| - 1]) + DigitValue(s[|s| - 1])
  }

  /** Decimal digits of a natural number, without leading zeros. */
  function DecNat(n: nat): (s: string)
    ensures |s| > 0 && AllDigits(s)
  {
    if n < 10 then [DigitChar(n)] else DecNat(n / 10) + [DigitChar(n % 10)]
  }

  /** What `%lld` prints. */
  function Dec(n: int): (s: string)
    ensures |s| > 0
  {
    if n < 0 then "-" + DecNat(-n) else DecNat(n)
  }

  lemma {:induction false} ValueOfDecNat(n: nat)
    ensures ValueOf(DecNat(n)) == n
  {
    if n >= 10 {
      ValueOfDecNat(n / 10);
      var s := DecNat(n);
      assert s[..|s| - 1] == DecNat(n / 10);
    }
  }

  lemma {:induction false} DecNatInjective(a: nat, b: nat)
    requires DecNat(a) == DecNat(b)
    ensures a == b
  {
    ValueOfDecNat(a);
    ValueOfDecNat(b);
  }

  /** A number below 10^k prints in at most k digits. */
  lemma {:induction false} DecNatLength(n: nat, k: nat, bound: nat)
    requires k >= 1 && bound == Pow10(k) && n < bound
    ensures |DecNat(n)| <= k
  {
    if n >= 10 {
      assert Pow10(1) == 10 * Pow10(0);
      assert Pow10(k) == 10 * Pow10(k - 1);
      DecNatLength(n / 10, k - 1, Pow10(k - 1));
    }
  }

  function Pow10(k: nat): nat { if k == 0 then 1 else 10 * Pow10(k - 1) }

  /** Every 64-bit integer prints in at most 20 bytes. */
  lemma {:induction false} DecLength(n: int)
    requires FitsI64(n)
    ensures |Dec(n)| <= 20
  {
    assert Pow10(5) == 100000;
    assert Pow10(10) == 10000000000;
    assert Pow10(15) == 1000000000000000;
    assert Pow10(19) == 10000000000000000000;
    DecNatLength(if n < 0 then -n else n, 19, Pow10(19));
  }

  // ---------------------------------------------------------------- strtoll

  function SkipSpace(s: string): (r: string)
    ensures |r| <= |s|
  {
    if s != [] && IsSpace(s[0]) then SkipSpace(s[1..]) else s
  }

  /** The longest prefix of digits. */
  function DigitRun(s: string): (r: string)
    ensures AllDigits(r) && r <= s
    ensures |r| < |s| ==> !IsDigit(s[|r|])
  {
    if s != [] && IsDigit(s[0]) then [s[0]] + DigitRun(s[1..]) else []
  }

  function Clamp(n: int): (r: int)
    ensures FitsI64(r)
  {
    if n > LLONG_MAX then LLONG_MAX else if n < LLONG_MIN then LLONG_MIN else n
  }

  function Signed(negative: bool, magnitude: nat): int {
    if negative then -(magnitude as int) else magnitude
  }

  function ReadDigits(negative: bool, s: string): (r: Option<int>)
    ensures r.Some? ==> FitsI64(r.value)
  {
    var digits := DigitRun(s);
    if digits == [] then None else Some(Clamp(Signed(negative, ValueOf(digits))))
  }

  /** `strtoll(s, &end, 10)`; `None` is the case `end == s`, where nothing was converted. */
  function StrToLL(s: string): (r: Option<int>)
    ensures r.Some? ==> FitsI64(r.value)
  {
    var t := SkipSpace(s);
    if t == [] then None
    else if t[0] == '-' then ReadDigits(true, t[1..])
    else if t[0] == '+' then ReadDigits(false, t[1..])
    else ReadDigits(false, t)
  }

  lemma {:induction false} DigitRunOf(d: string, rest: string)
    requires AllDigits(d)
    requires rest == [] || !IsDigit(rest[0])
    ensures DigitRun(d + rest) == d
  {
    var s := d + rest;
    if d == [] {
      assert s == rest;
    } else {
      assert s[1..] == d[1..] + rest;
      DigitRunOf(d[1..], rest);
      assert d == [d[0]] + d[1..];
    }
  }

  predicate AllSpace(s: string) { forall i :: 0 <= i < |s| ==> IsSpace(s[i]) }

  lemma {:induction false} SkipPadding(ws: string, s: string)
    requires AllSpace(ws) && (s == [] || !IsSpace(s[0]))
    ensures SkipSpace(ws + s) == s
  {
    if ws == [] {
      assert ws + s == s;
    } else {
      assert (ws + s)[1..] == ws[1..] + s;
      SkipPadding(ws[1..], s);
    }
  }

  predicate IsSign(s: string) { s == "" || s == "+" || s == "-" }

  /** The nearest 64-bit integer. */
  function Nearest(n: int): int {
    if n >= 0x7FFF_FFFF_FFFF_FFFF then 0x7FFF_FFFF_FFFF_FFFF
    else if n <= -0x8000_0000_0000_0000 then -0x8000_0000_0000_0000
    else n
  }

  lemma SignedStart(sign: string, digits: string, rest: string)
    requires IsSign(sign) && digits != [] && AllDigits(digits)
    ensures var t := sign + digits + rest;
      && t != [] && !IsSpace(t[0])
      && (sign == "-" ==> t[0] == '-' && t[1..] == digits + rest)
      && (sign == "+" ==> t[0] == '+' && t[1..] == digits + rest)
      && (sign == "" ==> t == digits + rest && IsDigit(t[0]))
  {
    var t := sign + digits + rest;
    assert sign == "" ==> t[0] == digits[0];
    assert sign != "" ==> t[0] == sign[0] && t[1..] == digits + rest;
  }

  /** `strtoll` on white space, a sign, digits and then anything but a digit: the value, cut to 64 bits. */
  lemma {:induction false} StrToLLText(ws: string, sign: string, digits: string, rest: string)
    requires AllSpace(ws) && IsSign(sign) && digits != [] && AllDigits(digits)
    requires rest == [] || !IsDigit(rest[0])
    ensures StrToLL(ws + (sign + digits + rest))
         == Some(Nearest(if sign == "-" then -(ValueOf(digits) as int) else ValueOf(digits)))
  {
    hide ValueOf;
    hide SkipSpace;
    hide DigitRun;
    SignedStart(sign, digits, rest);
    SkipPadding(ws, sign + digits + rest);
    DigitRunOf(digits, rest);
    assert !IsDigit('-') && !IsDigit('+');
  }

  /** It converts nothing when no digit follows the white space and the sign. */
  lemma {:induction false} StrToLLNothing(ws: string, sign: string, rest: string)
    requires AllSpace(ws) && IsSign(sign) && (rest == [] || !IsDigit(rest[0]))
    requires sign == "" && rest != [] ==> !IsSpace(rest[0]) && rest[0] != '-' && rest[0] != '+'
    ensures StrToLL(ws + (sign + rest)) == None
  {
    hide SkipSpace;
    var t := sign + rest;
    assert sign != "" ==> t[0] == sign[0] && t[1..] == rest;
    assert sign == "" ==> t == rest;
    SkipPadding(ws, t);
    assert DigitRun(rest) == [];
  }

  /** Printing any integer and reading it back, whatever non-digit text follows: exact if it fits in 64 bits. */
  lemma {:induction false} StrToLLDec(n: int, rest: string)
    requires rest == [] || !IsDigit(rest[0])
    ensures StrToLL(Dec(n) + rest) == Some(Nearest(n))
    ensures FitsI64(n) ==> StrToLL(Dec(n) + rest) == Some(n)
  {
    hide StrToLL;
    hide ValueOf;
    hide DecNat;
    var digits := DecNat(if n < 0 then -n else n);
    var sign := if n < 0 then "-" else "";
    ValueOfDecNat(if n < 0 then -n else n);
    StrToLLText("", sign, digits, rest);
    assert "" + (sign + digits + rest) == Dec(n) + rest;
  }

  // ---------------------------------------------------------------- Zig's parseInt(i64, _, 10)

  /** Digits with the `_` separators removed. */
  function WithoutUnderscores(s: string): string {
    if s == [] then []
    else if s[0] == '_' then WithoutUnderscores(s[1..])
    else [s[0]] + WithoutUnderscores(s[1..])
  }

  function ZigReadDigits(negative: bool, s: string): (r: Option<int>)
    ensures r.Some? ==> FitsI64(r.value)
  {
    if s == [] || s[0] == '_' || s[|s| - 1] == '_' then None else
    var digits := WithoutUnderscores(s);
    if !AllDigits(digits) then None else
    var n := Signed(negative, ValueOf(digits));
    if FitsI64(n) then Some(n) else None
  }

  /** `std.fmt.parseInt(i64, s, 10)`; `None` is either of its errors. */
  function ZigParseInt(s: string): (r: Option<int>)
    ensures r.Some? ==> FitsI64(r.value)
  {
    if s == [] then None
    else if s[0] == '-' then ZigReadDigits(true, s[1..])
    else if s[0] == '+' then ZigReadDigits(false, s[1..])
    else ZigReadDigits(false, s)
  }

  lemma {:induction false} NoUnderscores(s: string)
    requires AllDigits(s)
    ensures WithoutUnderscores(s) == s
  {
    if s != [] {
      NoUnderscores(s[1..]);
      assert s == [s[0]] + s[1..];
    }
  }

  /** Printing any integer and reading it back: an error exactly when it does not fit in 64 bits. */
  lemma {:induction false} ZigParseIntDec(n: int)
    ensures ZigParseInt(Dec(n)) == if FitsI64(n) then Some(n) else None
  {
    hide ValueOf;
    hide DecNat;
    hide WithoutUnderscores;
    var magnitude := if n < 0 then -n else n;
    var digits := DecNat(magnitude);
    ValueOfDecNat(magnitude);
    NoUnderscores(digits);
    assert !IsDigit('_') && !IsDigit('-') && !IsDigit('+');
    if n < 0 {
      assert Dec(n)[1..] == digits;
    }
  }
}
