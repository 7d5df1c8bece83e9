/**
 Decimal text, as printed by `%d` and `strconv.Itoa` and read by `strconv.Atoi`.
*/
module Decimal {

  function Digit(d: nat): char
    requires d < 10
  {
    '0' + d as char
  }

  predicate IsDigit(c: char) {
    '0' <= c <= '9'
  }

  function DigitValue(c: char): nat
    requires IsDigit(c)
  {
    c as int - '0' as int
  }

  predicate IsNumeral(s: string) {
    s != "" && forall i | 0 <= i < |s| :: IsDigit(s[i])
  }

  function Print(n: nat): string {
    if n < 10 then [Digit(n)] else Print(n / 10) + [Digit(n % 10)]
  }

  function Itoa(n: int): string {
    if n < 0 then "-" + Print(-n) else Print(n)
  }

  function Value(s: string): nat
    requires forall i | 0 <= i < |s| :: IsDigit(s[i])
  {
    if s == "" then 0 else 10 * Value(s[..|s| - 1]) + DigitValue(s[|s| - 1])
  }

  lemma {:induction false} PrintValue(n: nat)
    ensures IsNumeral(Print(n)) && Value(Print(n)) == n
  {
    if n >= 10 {
      PrintValue(n / 10);
      assert Print(n)[..|Print(n)| - 1] == Print(n / 10);
    } else {
      assert Print(n)[..0] == "";
    }
  }

  lemma PrintInjective(m: nat, n: nat)
    requires Print(m) == Print(n)
    ensures m == n
  {
    PrintValue(m);
    PrintValue(n);
  }

  function Pow10(k: nat): nat {
    if k == 0 then 1 else 10 * Pow10(k - 1)
  }

  lemma {:induction false} PrintLength(n: nat, k: nat)
    requires k > 0 && n < Pow10(k)
    ensures |Print(n)| <= k
  {
    if n >= 10 {
      assert k > 1 by {
        assert Pow10(1) == 10 * Pow10(0);
      }
      PrintLength(n / 10, k - 1);
    }
  }

  /**
   `strconv.ParseUint` in base 10: a character that is no digit makes the result 0, and
   running over 64 bits stops the reading at once with the largest value.
  */
  function ParseUint(s: string, n: nat): nat {
    if s == "" then n
    else if !IsDigit(s[0]) then 0
    else
      var m := 10 * n + DigitValue(s[0]);
      if m >= 0x1_0000_0000_0000_0000 then 0xFFFF_FFFF_FFFF_FFFF else ParseUint(s[1..], m)
  }

  /** The value `strconv.Atoi` returns next to its error, on a 64-bit machine. */
  function Atoi(s: string): int {
    if s == "" then 0
    else
      var negative := s[0] == '-';
      var digits := if s[0] == '-' || s[0] == '+' then s[1..] else s;
      var n: int := ParseUint(digits, 0);
      if !negative && n >= 0x8000_0000_0000_0000 then 0x7FFF_FFFF_FFFF_FFFF
      else if negative && n > 0x8000_0000_0000_0000 then -0x8000_0000_0000_0000
      else if negative then -n
      else n
  }

  /** The digits a text starts with. */
  function Digits(s: string): (d: string)
    ensures d <= s && forall i | 0 <= i < |d| :: IsDigit(d[i])
  {
    if s == "" || !IsDigit(s[0]) then ""
    else
      assert s == [s[0]] + s[1..];
      [s[0]] + Digits(s[1..])
  }

  function Unsigned(s: string): string {
    if s != "" && (s[0] == '-' || s[0] == '+') then s[1..] else s
  }

  lemma {:induction false} DigitsOfNumeral(s: string)
    requires forall i | 0 <= i < |s| :: IsDigit(s[i])
    ensures Digits(s) == s && (s != "" ==> Unsigned(s) == s)
  {
    if s != "" {
      DigitsOfNumeral(s[1..]);
      assert IsDigit(s[0]) && s == [s[0]] + s[1..];
    }
  }

  lemma {:induction false} ValueGrows(front: string, s: string)
    requires forall i | 0 <= i < |front| :: IsDigit(front[i])
    requires forall i | 0 <= i < |s| :: IsDigit(s[i])
    ensures Value(front) <= Value(front + s)
    decreases |s|
  {
    if s == "" {
      assert front + s == front;
    } else {
      assert (front + s)[..|front + s| - 1] == front + s[..|s| - 1];
      ValueGrows(front, s[..|s| - 1]);
    }
  }

  lemma ValueStep(front: string, c: char)
    requires (forall i | 0 <= i < |front| :: IsDigit(front[i])) && IsDigit(c)
    ensures Value(front + [c]) == 10 * Value(front) + DigitValue(c)
  {
    assert (front + [c])[..|front|] == front;
  }

  /** What `strconv.ParseUint` makes of any text, after the digits `front` have been read. */
  lemma {:induction false} ParseUintExactly(front: string, s: string)
    requires forall i | 0 <= i < |front| :: IsDigit(front[i])
    requires Value(front) < 0x1_0000_0000_0000_0000
    ensures var v := Value(front + Digits(s));
      ParseUint(s, Value(front)) ==
        if v >= 0x1_0000_0000_0000_0000 then 0xFFFF_FFFF_FFFF_FFFF else if Digits(s) != s then 0 else v
    decreases |s|
  {
    hide Value, DigitValue;
    assert front + "" == front;
    if s != "" && IsDigit(s[0]) {
      var next := front + [s[0]];
      ValueStep(front, s[0]);
      assert front + Digits(s) == next + Digits(s[1..]);
      ValueGrows(next, Digits(s[1..]));
      if Value(next) < 0x1_0000_0000_0000_0000 {
        ParseUintExactly(next, s[1..]);
        assert s == [s[0]] + s[1..];
      }
    }
  }

  /** The magnitude that any text is read as: its digits' value, cut off at 64 bits, unless something follows them first. */
  function Magnitude(s: string): nat {
    var v := Value(Digits(s));
    if v >= 0x1_0000_0000_0000_0000 then 0xFFFF_FFFF_FFFF_FFFF else if Digits(s) != s then 0 else v
  }

  /** What `strconv.Atoi` makes of any text. */
  lemma AtoiExactly(s: string)
    ensures var n: int := Magnitude(Unsigned(s));
      Atoi(s) ==
        if s != "" && s[0] == '-' then (if n > 0x8000_0000_0000_0000 then -0x8000_0000_0000_0000 else -n)
        else if n >= 0x8000_0000_0000_0000 then 0x7FFF_FFFF_FFFF_FFFF else n
  {
    ParseUintExactly("", Unsigned(s));
    assert "" + Digits(Unsigned(s)) == Digits(Unsigned(s));
  }

  /** What was printed is read back, for every value that fits. */
  lemma AtoiItoa(n: int)
    requires -0x8000_0000_0000_0000 <= n < 0x8000_0000_0000_0000
    ensures Atoi(Itoa(n)) == n
  {
    var digits := Print(if n < 0 then -n else n);
    PrintValue(if n < 0 then -n else n);
    DigitsOfNumeral(digits);
    AtoiExactly(Itoa(n));
    if n < 0 {
      assert Itoa(n)[0] == '-' && Itoa(n)[1..] == digits;
    } else {
      assert IsDigit(digits[0]);
    }
  }
}
