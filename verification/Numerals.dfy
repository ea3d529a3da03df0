/** Numbers in base ten, by character codes, and that this is what is printed and read. */
module Numerals {
  import opened Decimal

  function Pow10(n: nat): (p: nat)
    ensures p > 0
  {
    if n == 0 then 1 else 10 * Pow10(n - 1)
  }

  /** What a numeral is worth, from its leading digit on, by character codes. */
  function Worth(d: string): int {
    if d == "" then 0 else (d[0] as int - 48) * Pow10(|d| - 1) + Worth(d[1..])
  }

  /** `d` is the way to write `n` in base ten: digits only, and no zero in front. */
  predicate Numeral(d: string, n: nat) {
    d != "" && Digits(d) && Worth(d) == n && (d[0] == '0' ==> |d| == 1)
  }

  /** A digit in front counts for itself times a power of ten. */
  lemma {:induction false} ValueFirst(c: char, d: string)
    ensures Value([c] + d) == (c as int - 48) * Pow10(|d|) + Value(d)
  {
    var s := [c] + d;
    if d == "" {
      assert s[..0] == "";
      assert Value(s) == c as int - 48;
    } else {
      var e, k := d[..|d| - 1], Pow10(|d| - 1);
      assert s[..|s| - 1] == [c] + e;
      ValueFirst(c, e);
      assert Value(s) == 10 * ((c as int - 48) * k + Value(e)) + (d[|d| - 1] as int - 48);
      assert Pow10(|d|) == 10 * k;
      Tenfold(c as int - 48, k);
    }
  }

  lemma Tenfold(x: int, k: int)
    ensures 10 * (x * k) == x * (10 * k)
  {
  }

  lemma {:induction false} ValueIsWorth(d: string)
    ensures Value(d) == Worth(d)
  {
    if d != "" {
      ValueIsWorth(d[1..]);
      ValueFirst(d[0], d[1..]);
      assert d == [d[0]] + d[1..];
    }
  }

  /** `atoi` reads base ten: the digits up to the first other character, the leading one worth the most. */
  lemma ReadIsDecimal(d: string, rest: string)
    requires Digits(d) && d != "" && Ends(rest)
    ensures Read(d + rest) == Worth(d) == (d[0] as int - 48) * Pow10(|d| - 1) + Read(d[1..])
  {
    ReadsTo(d, rest);
    ReadsWorth(d[1..]);
  }

  lemma ReadsTo(d: string, rest: string)
    requires Digits(d) && d != "" && Ends(rest)
    ensures Read(d + rest) == Worth(d)
  {
    assert IsDigit(d[0]) && (d + rest)[0] == d[0];
    LeadingIs(d, rest);
    ReadPositive(d + rest);
    ValueIsWorth(d);
  }

  lemma ReadsWorth(d: string)
    requires Digits(d)
    ensures Read(d) == Worth(d)
  {
    LeadingIs(d, "");
    assert d + "" == d;
    ValueIsWorth(d);
    if d != "" { assert IsDigit(d[0]); }
  }

  /** A number is printed as its numeral. */
  lemma {:induction false} PrintIsNumeral(n: nat)
    ensures Numeral(Print(n), n) && (n > 0 ==> Print(n)[0] != '0')
  {
    PrintsDigits(n);
    ValuePrint(n);
    ValueIsWorth(Print(n));
    FirstDigit(n);
  }

  lemma {:induction false} FirstDigit(n: nat)
    ensures Print(n) != "" && (n > 0 ==> Print(n)[0] != '0') && (n == 0 ==> Print(n) == "0")
  {
    if n >= 10 { FirstDigit(n / 10); }
  }

  /** There is one way to write a number, so whoever writes it writes what is printed. */
  lemma {:induction false} NumeralIsPrint(d: string, n: nat)
    requires Numeral(d, n)
    ensures d == Print(n)
    decreases |d|
  {
    var e, c := d[..|d| - 1], d[|d| - 1];
    ValueIsWorth(d);
    assert IsDigit(c) && Digits(e);
    if e == "" {
      assert d == [c];
      assert Value(e) == 0;
    } else {
      ValueIsWorth(e);
      ValueNat(e);
      assert e[0] == d[0] && IsDigit(e[0]);
      if Value(e) == 0 {
        NumeralIsPrint(e, 0);
        assert false;
      }
      NumeralIsPrint(e, Value(e));
      assert n == 10 * Value(e) + (c as int - 48);
      assert d == e + [c];
    }
  }
}
