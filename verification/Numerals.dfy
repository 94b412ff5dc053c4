/** Decimal and hexadecimal numerals: printing, reading, and that reading undoes printing. */
module Numerals {
  import opened Text

  predicate IsDigit(c: char) {
    '0' <= c <= '9'
  }

  predicate AllDigits(s: string) {
    forall i :: 0 <= i < |s| ==> IsDigit(s[i])
  }

  function DigitValue(c: char): (d: nat)
    ensures d < 10
  {
    if IsDigit(c) then c as int - '0' as int else 0
  }

  function DigitChar(d: nat): (c: char)
    requires d < 10
    ensures IsDigit(c) && DigitValue(c) == d
  {
    ('0' as int + d) as char
  }

  /** The number a digit string denotes; leading zeros are harmless. */
  function Value(s: string): nat {
    if s == "" then 0 else Value(s[..|s| - 1]) * 10 + DigitValue(s[|s| - 1])
  }

  /** `str(n)` for a natural number. */
  function ShowNat(n: nat): string {
    if n < 10 then [DigitChar(n)] else ShowNat(n / 10) + [DigitChar(n % 10)]
  }

  /** `str(n)`. */
  function Show(n: int): string {
    if n < 0 then "-" + ShowNat(-n) else ShowNat(n)
  }

  lemma {:induction false} ShowNatReads(n: nat)
    ensures ShowNat(n) != "" && AllDigits(ShowNat(n)) && Value(ShowNat(n)) == n
    ensures ShowNat(n)[0] == '0' ==> n == 0 && ShowNat(n) == "0"
  {
    if n < 10 {
      assert ShowNat(n)[..0] == "";
    } else {
      ShowNatReads(n / 10);
      var s := ShowNat(n);
      assert s[..|s| - 1] == ShowNat(n / 10);
    }
  }

  /** `int(text)`: surrounding whitespace and one sign are accepted; None stands for ValueError. */
  function ParseInt(text: string): Option<int> {
    var t := Strip(text);
    var body := if t != "" && (t[0] == '-' || t[0] == '+') then t[1..] else t;
    if body == "" || !AllDigits(body) then None
    else
      var v: int := Value(body);
      Some(if t[0] == '-' then -v else v)
  }

  lemma DigitsTrimmed(s: string)
    requires s != "" && AllDigits(s)
    ensures Strip(s) == s
  {
    StripTrimmed(s);
  }

  lemma ParseDigits(s: string)
    requires s != "" && AllDigits(s)
    ensures ParseInt(s) == Some(Value(s))
  {
    DigitsTrimmed(s);
  }

  /** Reading undoes printing. */
  lemma ParseShow(n: int)
    ensures ParseInt(Show(n)) == Some(n)
  {
    if n < 0 {
      ShowNatReads(-n);
      var s := Show(n);
      assert s[1..] == ShowNat(-n);
      StripTrimmed(s);
    } else {
      ShowNatReads(n);
      ParseDigits(ShowNat(n));
    }
  }

  predicate IsHex(c: char) {
    IsDigit(c) || 'a' <= c <= 'f' || 'A' <= c <= 'F'
  }

  predicate AllHex(s: string) {
    forall i :: 0 <= i < |s| ==> IsHex(s[i])
  }

  function HexDigitValue(c: char): (d: nat)
    ensures d < 16
  {
    if IsDigit(c) then c as int - '0' as int
    else if 'a' <= c <= 'f' then c as int - 'a' as int + 10
    else if 'A' <= c <= 'F' then c as int - 'A' as int + 10
    else 0
  }

  function HexValue(s: string): nat {
    if s == "" then 0 else HexValue(s[..|s| - 1]) * 16 + HexDigitValue(s[|s| - 1])
  }

  /** Case does not change a hexadecimal numeral. */
  lemma {:induction false} HexValueLower(s: string)
    ensures HexValue(Lower(s)) == HexValue(s)
  {
    if s != "" {
      HexValueLower(s[..|s| - 1]);
      assert Lower(s)[..|s| - 1] == Lower(s[..|s| - 1]);
    }
  }

  /** `^0x[0-9a-fA-F]{40}$`. */
  predicate IsAddress(s: string) {
    |s| == 42 && s[..2] == "0x" && AllHex(s[2..])
  }

  /** What `int` reads: one sign or none, then digits, after blanks are stripped. */
  lemma ParseIntReads(text: string, sign: string, digits: string)
    requires Strip(text) == sign + digits && sign in {"", "-", "+"} && digits != "" && AllDigits(digits)
    ensures var v: int := Value(digits); ParseInt(text) == Some(if sign == "-" then -v else v)
  {
    var t := Strip(text);
    assert sign == "" ==> t == digits && IsDigit(t[0]);
    assert sign != "" ==> t[0] == sign[0] && t[1..] == digits;
  }

  /** And it reads nothing else. */
  lemma ParseIntSplits(text: string) returns (sign: string, digits: string)
    ensures ParseInt(text).Some? ==>
              Strip(text) == sign + digits && sign in {"", "-", "+"} && digits != "" && AllDigits(digits)
  {
    var t := Strip(text);
    if t != "" && (t[0] == '-' || t[0] == '+') {
      sign, digits := [t[0]], t[1..];
    } else {
      sign, digits := "", t;
    }
  }
}
