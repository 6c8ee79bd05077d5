/** The number formats used by the hash payload: %d and %.8f, over mathematical integers and reals. */
module Printing {
  const SEPARATOR := '|'
  const SCALE := 100_000_000

  function Digit(d: nat): char
    requires d < 10
  {
    '0' + d as char
  }

  function Digits(n: nat): (s: string)
    ensures |s| > 0
  {
    if n < 10 then [Digit(n)] else Digits(n / 10) + [Digit(n % 10)]
  }

  /** Exactly k digits, with leading zeros. */
  function Padded(n: nat, k: nat): (s: string)
    ensures |s| == k
  {
    if k == 0 then "" else Padded(n / 10, k - 1) + [Digit(n % 10)]
  }

  /** %d. */
  function Decimal(n: int): string {
    if n < 0 then "-" + Digits(-n) else Digits(n)
  }

  /** Nearest integer, ties to even. */
  function RoundHalfEven(x: real): int {
    var f := x.Floor;
    var d := x - f as real;
    if d < 0.5 || (d == 0.5 && f % 2 == 0) then f else f + 1
  }

  /** What %.8f keeps of a number: its sign and its magnitude in units of 1e-8. A negative number that
    * rounds to zero keeps its minus sign. */
  datatype Fixed = Fixed(negative: bool, units: nat)

  function ToFixed(x: real): Fixed {
    var magnitude := if x < 0.0 then -x else x;
    Fixed(x < 0.0, RoundHalfEven(magnitude * (SCALE as real)))
  }

  function PrintFixed(f: Fixed): string {
    (if f.negative then "-" else "") + Digits(f.units / SCALE) + "." + Padded(f.units % SCALE, 8)
  }

  /** %.8f. */
  function Fixed8(x: real): string {
    PrintFixed(ToFixed(x))
  }

  predicate IsDigits(s: string) {
    forall c :: c in s ==> '0' <= c <= '9'
  }

  ghost function Value(s: string): int {
    if s == "" then 0 else 10 * Value(s[..|s| - 1]) + (s[|s| - 1] as int - '0' as int)
  }

  lemma {:induction false} DigitsInverse(n: nat)
    ensures Value(Digits(n)) == n && IsDigits(Digits(n))
  {
    if n < 10 {
      assert Digits(n)[..0] == "";
    } else {
      DigitsInverse(n / 10);
      assert Digits(n)[..|Digits(n)| - 1] == Digits(n / 10);
    }
  }

  ghost function Pow10(k: nat): nat {
    if k == 0 then 1 else 10 * Pow10(k - 1)
  }

  lemma {:induction false} PaddedInverse(n: nat, k: nat)
    requires n < Pow10(k)
    ensures Value(Padded(n, k)) == n && IsDigits(Padded(n, k))
  {
    if k > 0 {
      PaddedInverse(n / 10, k - 1);
      assert Padded(n, k)[..k - 1] == Padded(n / 10, k - 1);
    }
  }

  lemma DecimalInjective(m: int, n: int)
    requires Decimal(m) == Decimal(n)
    ensures m == n
  {
    DigitsInverse(if m < 0 then -m else m);
    DigitsInverse(if n < 0 then -n else n);
    assert Digits(if m < 0 then -m else m)[0] in Digits(if m < 0 then -m else m);
    assert Digits(if n < 0 then -n else n)[0] in Digits(if n < 0 then -n else n);
    assert m < 0 ==> Decimal(m)[0] == '-' && Decimal(m)[1..] == Digits(-m);
    assert n < 0 ==> Decimal(n)[0] == '-' && Decimal(n)[1..] == Digits(-n);
  }

  lemma PrintFixedInjective(f: Fixed, g: Fixed)
    requires PrintFixed(f) == PrintFixed(g)
    ensures f == g
  {
    FixedParts(f);
    FixedParts(g);
  }

  /** Every part of a fixed-point number can be read back from its text. */
  lemma FixedParts(f: Fixed)
    ensures var s := PrintFixed(f);
            && |s| > 9
            && (s[0] == '-' <==> f.negative)
            && Value(s[if f.negative then 1 else 0..|s| - 9]) * SCALE + Value(s[|s| - 8..]) == f.units
            && s[|s| - 9] == '.' && IsDigits(s[if f.negative then 1 else 0..|s| - 9]) && IsDigits(s[|s| - 8..])
            && SEPARATOR !in s
  {
    var s := PrintFixed(f);
    var whole, fraction := Digits(f.units / SCALE), Padded(f.units % SCALE, 8);
    var sign := if f.negative then "-" else "";
    DigitsInverse(f.units / SCALE);
    assert Pow10(8) == SCALE by {
      assert Pow10(4) == 10_000;
      assert Pow10(6) == 1_000_000;
    }
    PaddedInverse(f.units % SCALE, 8);
    assert s == sign + (whole + ("." + fraction));
    assert s[|sign|..|s| - 9] == whole;
    assert s[|s| - 8..] == fraction;
    assert s[|s| - 9] == ("." + fraction)[0];
    assert s[0] == (sign + whole)[0];
    assert whole[0] in whole;
  }

  lemma DecimalHasNoSeparator(n: int)
    ensures SEPARATOR !in Decimal(n)
  {
    DigitsInverse(if n < 0 then -n else n);
  }

  /** An integer printed with %.8f keeps its value exactly. */
  lemma IntegersAreExact(m: int, n: int)
    requires ToFixed(m as real) == ToFixed(n as real)
    ensures m == n
  {
    ScaledInteger(m);
    ScaledInteger(n);
  }

  lemma ScaledInteger(n: int)
    ensures ToFixed(n as real) == Fixed(n < 0, (if n < 0 then -n else n) * SCALE)
  {
    var a := if n < 0 then -n else n;
    assert (a as real) * (SCALE as real) == (a * SCALE) as real;
  }

  /** The printed units are the nearest to the number, the even ones of two. */
  lemma UnitsAreNearest(x: real)
    ensures var f := ToFixed(x); var scaled := (if x < 0.0 then -x else x) * 100000000.0;
            && (f.negative <==> x < 0.0) && -0.5 <= f.units as real - scaled <= 0.5
            && (f.units as real - scaled == 0.5 || f.units as real - scaled == -0.5 ==> f.units % 2 == 0)
  {
  }

  /** Decimal digits, most significant first, with a sign for negative numbers only. */
  lemma DecimalIsRead(n: int)
    ensures n >= 0 ==> IsDigits(Decimal(n)) && Value(Decimal(n)) == n
    ensures n < 0 ==> Decimal(n)[0] == '-' && IsDigits(Decimal(n)[1..]) && Value(Decimal(n)[1..]) == -n
    ensures Value("120") == 120
  {
    DigitsInverse(if n < 0 then -n else n);
    assert n < 0 ==> Decimal(n)[1..] == Digits(-n);
    assert "120"[..2] == "12" && "12"[..1] == "1" && "1"[..0] == "";
    assert Value("1") == 1 && Value("12") == 12;
  }
}
