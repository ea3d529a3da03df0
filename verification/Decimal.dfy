/** Numbers as decimal text, as the standard library prints and reads them. */
module Decimal {
  predicate IsDigit(c: char) {
    '0' <= c <= '9'
  }

  predicate Digits(s: string) {
    forall i {:trigger s[i]} :: 0 <= i < |s| ==> IsDigit(s[i])
  }

  /** The text does not go on with a digit. */
  predicate Ends(s: string) {
    s == "" || !IsDigit(s[0])
  }

  predicate IsSpace(c: char) {
    c == ' ' || '\t' as int <= c as int <= '\r' as int
  }

  function DigitOf(n: nat): (c: char)
    requires n < 10
  {
    ('0' as int + n) as char
  }

  function Print(n: nat): string {
    if n < 10 then [DigitOf(n)] else Print(n / 10) + [DigitOf(n % 10)]
  }

  function PrintInt(i: int): string {
    if i < 0 then "-" + Print(-i) else Print(i)
  }

  /** What the digits `s` stand for. */
  function Value(s: string): int {
    if s == "" then 0 else 10 * Value(s[..|s| - 1]) + (s[|s| - 1] as int - '0' as int)
  }

  function LeadingDigits(s: string): string {
    if Ends(s) then "" else [s[0]] + LeadingDigits(s[1..])
  }

  function SkipSpaces(s: string): string {
    if s == "" || !IsSpace(s[0]) then s else SkipSpaces(s[1..])
  }

  /** `atoi` and `strtol` in base 10: white space, a sign, and the digits up to the first other character. */
  function Read(s: string): int {
    var t := SkipSpaces(s);
    if t != "" && t[0] == '-' then -Value(LeadingDigits(t[1..]))
    else if t != "" && t[0] == '+' then Value(LeadingDigits(t[1..]))
    else Value(LeadingDigits(t))
  }

  lemma {:induction false} PrintsDigits(n: nat)
    ensures |Print(n)| > 0 && Digits(Print(n))
  {
    if n >= 10 { PrintsDigits(n / 10); }
  }

  lemma {:induction false} ValuePrint(n: nat)
    ensures Value(Print(n)) == n
  {
    if n >= 10 {
      ValuePrint(n / 10);
      assert Print(n)[..|Print(n)| - 1] == Print(n / 10);
    } else {
      assert Print(n)[..0] == "";
    }
  }

  lemma {:induction false} LeadingIs(d: string, rest: string)
    requires Digits(d) && Ends(rest)
    ensures LeadingDigits(d + rest) == d
  {
    if d == "" {
      assert d + rest == rest;
    } else {
      assert (d + rest)[0] == d[0] && (d + rest)[1..] == d[1..] + rest;
      LeadingIs(d[1..], rest);
    }
  }

  lemma ReadDigits(n: nat, rest: string)
    requires Ends(rest)
    ensures Value(LeadingDigits(Print(n) + rest)) == n
  {
    PrintsDigits(n);
    LeadingIs(Print(n), rest);
    ValuePrint(n);
  }

  lemma ReadNegative(s: string)
    requires s != "" && s[0] == '-'
    ensures Read(s) == -Value(LeadingDigits(s[1..]))
  {
  }

  lemma ReadPositive(s: string)
    requires s != "" && IsDigit(s[0])
    ensures Read(s) == Value(LeadingDigits(s))
  {
  }

  lemma ReadPrintNat(n: nat, rest: string)
    requires Ends(rest)
    ensures Read(Print(n) + rest) == n
  {
    PrintsDigits(n);
    ReadPositive(Print(n) + rest);
    ReadDigits(n, rest);
  }

  lemma ReadPrintNegative(n: int, rest: string)
    requires n >= 0 && Ends(rest)
    ensures Read("-" + Print(n) + rest) == -n
  {
    var s := "-" + Print(n) + rest;
    assert s[1..] == Print(n) + rest;
    ReadNegative(s);
    ReadDigits(n, rest);
  }

  /** What is printed is read back, whatever comes after it, as long as it is not another digit. */
  lemma ReadPrint(i: int, rest: string)
    requires Ends(rest)
    ensures Read(PrintInt(i) + rest) == i
  {
    if i < 0 { ReadPrintNegative(-i, rest); } else { ReadPrintNat(i, rest); }
  }

  /** Digits alone are a number that is not negative. */
  lemma ReadsNat(d: string)
    requires Digits(d)
    ensures Read(d) >= 0
  {
    LeadingIs(d, "");
    assert d + "" == d;
    ValueNat(d);
    if d != "" { assert IsDigit(d[0]); }
  }

  lemma {:induction false} ValueNat(d: string)
    requires Digits(d)
    ensures Value(d) >= 0
  {
    if d != "" {
      assert Digits(d[..|d| - 1]) && IsDigit(d[|d| - 1]);
      ValueNat(d[..|d| - 1]);
    }
  }
}
