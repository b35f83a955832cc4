/**
 Go's 64-bit `int` and the part of `strconv` the proxy uses: `strconv.Atoi`
 on ASCII signs and digits, including its range errors, and `strconv.Itoa`
 as the canonical decimal form that `Atoi` inverts.
 */
module GoStrconv {
  import opened Wrappers

  const MinInt64: int := -0x8000_0000_0000_0000
  const MaxInt64: int := 0x7FFF_FFFF_FFFF_FFFF
  const MaxUint64: int := 0xFFFF_FFFF_FFFF_FFFF
  const Modulus64: int := 0x1_0000_0000_0000_0000

  /** Go's `int` on a 64-bit platform. */
  type Int64 = x: int | -0x8000_0000_0000_0000 <= x <= 0x7FFF_FFFF_FFFF_FFFF

  /** Two's-complement wrap-around of Go's `int` addition and subtraction. */
  function Wrap64(x: int): (r: Int64)
    ensures MinInt64 <= x <= MaxInt64 ==> r == x
    ensures MaxInt64 < x <= MaxInt64 + Modulus64 ==> r == x - Modulus64
    ensures MinInt64 - Modulus64 <= x < MinInt64 ==> r == x + Modulus64
  {
    (x - MinInt64) % Modulus64 + MinInt64
  }

  /** The wrapped value is the one int64 that agrees with `x` modulo 2^64. */
  lemma Wrap64Congruent(x: int, y: Int64)
    ensures (Wrap64(x) - x) % Modulus64 == 0
    ensures (y - x) % Modulus64 == 0 ==> y == Wrap64(x)
  {
  }

  /** The two error kinds `strconv.Atoi` reports. */
  datatype NumError = ErrSyntax | ErrRange

  predicate IsDigit(c: char) { '0' <= c <= '9' }

  function DigitValue(c: char): (d: nat)
    requires IsDigit(c)
    ensures d < 10
  {
    (c as int) - ('0' as int)
  }

  function DigitChar(d: nat): (c: char)
    requires d < 10
    ensures IsDigit(c) && DigitValue(c) == d
  {
    ('0' as int + d) as char
  }

  predicate AllDigits(s: string)
  {
    forall i :: 0 <= i < |s| ==> IsDigit(s[i])
  }

  /** The value of a string of decimal digits, read most significant first. */
  function DecimalValue(s: string): nat
    requires AllDigits(s)
  {
    if |s| == 0 then 0 else DecimalValue(s[..|s| - 1]) * 10 + DigitValue(s[|s| - 1])
  }

  /** What `strconv.ParseUint(s, 10, 64)` reports. */
  datatype UintScan = Scanned(n: nat) | ScanSyntax | ScanRange

  /**
   The digit loop of `strconv.ParseUint` in base 10: it stops at the first
   character that is not a digit (syntax error) or at the first digit that
   takes the accumulated value past the largest uint64 (range error),
   whichever comes first.
   */
  function ScanDigits(s: string, acc: nat): UintScan
    decreases |s|
  {
    if |s| == 0 then Scanned(acc)
    else if !IsDigit(s[0]) then ScanSyntax
    else
      var n := acc * 10 + DigitValue(s[0]);
      if n > MaxUint64 then ScanRange else ScanDigits(s[1..], n)
  }

  function ParseUint(s: string): UintScan
  {
    if |s| == 0 then ScanSyntax else ScanDigits(s, 0)
  }

  function Magnitude(s: string): string
  {
    if |s| > 0 && (s[0] == '+' || s[0] == '-') then s[1..] else s
  }

  /** An optional sign followed by at least one decimal digit. */
  predicate IsNumeral(s: string)
  {
    |Magnitude(s)| > 0 && AllDigits(Magnitude(s))
  }

  function NumeralValue(s: string): int
    requires IsNumeral(s)
  {
    var v: int := DecimalValue(Magnitude(s));
    if s[0] == '-' then -v else v
  }

  /**
   `strconv.Atoi(s)` (equivalently `strconv.ParseInt(s, 10, 64)`; Atoi's
   short-string fast path gives the same answers because fewer than 19
   characters cannot overflow). A syntax error yields 0; a range error yields
   the int64 bound on the side of the sign.
   */
  function Atoi(s: string): (r: (Int64, Option<NumError>))
    ensures r.1 == Some(ErrSyntax) ==> r.0 == 0
    ensures r.1 == Some(ErrRange) ==> |s| > 0 && r.0 == (if s[0] == '-' then MinInt64 else MaxInt64)
  {
    if |s| == 0 then (0, Some(ErrSyntax))
    else
      var neg := s[0] == '-';
      match ParseUint(Magnitude(s))
      case ScanSyntax => (0, Some(ErrSyntax))
      case ScanRange => if neg then (MinInt64, Some(ErrRange)) else (MaxInt64, Some(ErrRange))
      case Scanned(un) =>
        if !neg && un >= 0x8000_0000_0000_0000 then (MaxInt64, Some(ErrRange))
        else if neg && un > 0x8000_0000_0000_0000 then (MinInt64, Some(ErrRange))
        else (if neg then 0 - un else un, None)
  }

  /** Decimal digits of `n` without leading zeros. */
  function Digits(n: nat): (s: string)
    ensures |s| > 0 && AllDigits(s)
  {
    if n < 10 then [DigitChar(n)] else Digits(n / 10) + [DigitChar(n % 10)]
  }

  /** `strconv.Itoa(n)`: the canonical decimal form of an int. */
  function Itoa(n: Int64): string
  {
    if n < 0 then "-" + Digits(0 - n) else Digits(n)
  }

  /** The decimal form starts with a sign or a digit and ends with a digit. */
  lemma ItoaEnds(n: Int64)
    ensures var s := Itoa(n);
      |s| > 0 && (s[0] == '-' || IsDigit(s[0])) && IsDigit(s[|s| - 1])
  {
    var d := if n < 0 then Digits(0 - n) else Digits(n);
    assert Itoa(n)[|Itoa(n)| - 1] == d[|d| - 1];
  }

  lemma ItoaTen()
    ensures Itoa(10) == "10"
  {
    assert Digits(10) == Digits(1) + [DigitChar(0)];
  }

  lemma {:induction false} DigitsValue(n: nat)
    ensures DecimalValue(Digits(n)) == n
  {
    var s := Digits(n);
    if n >= 10 {
      DigitsValue(n / 10);
      assert s[..|s| - 1] == Digits(n / 10);
    }
  }

  lemma {:induction false} DecimalValuePrefix(s: string, j: nat)
    requires AllDigits(s) && j <= |s|
    ensures DecimalValue(s[..j]) <= DecimalValue(s)
    decreases |s|
  {
    if j < |s| {
      var t := s[..|s| - 1];
      DecimalValuePrefix(t, j);
      assert t[..j] == s[..j];
    } else {
      assert s[..j] == s;
    }
  }

  /** The digit loop computes the decimal value, or reports overflow exactly when it exceeds uint64. */
  lemma {:induction false} ScanDigitsValue(s: string, i: nat)
    requires AllDigits(s) && i <= |s|
    requires DecimalValue(s[..i]) <= MaxUint64
    ensures ScanDigits(s[i..], DecimalValue(s[..i]))
         == if DecimalValue(s) <= MaxUint64 then Scanned(DecimalValue(s)) else ScanRange
    decreases |s| - i
  {
    if i == |s| {
      assert s[..i] == s;
    } else {
      var acc := DecimalValue(s[..i]);
      assert s[i..][0] == s[i];
      assert s[..i + 1][..i] == s[..i];
      var n := DecimalValue(s[..i + 1]);
      assert n == acc * 10 + DigitValue(s[i]);
      if n > MaxUint64 {
        DecimalValuePrefix(s, i + 1);
      } else {
        assert s[i..][1..] == s[i + 1..];
        ScanDigitsValue(s, i + 1);
      }
    }
  }

  /** A string the digit loop accepts holds nothing but digits. */
  lemma {:induction false} ScannedAllDigits(s: string, acc: nat)
    requires ScanDigits(s, acc).Scanned?
    ensures AllDigits(s)
    decreases |s|
  {
    if |s| > 0 {
      var n := acc * 10 + DigitValue(s[0]);
      ScannedAllDigits(s[1..], n);
      assert forall i :: 1 <= i < |s| ==> s[i] == s[1..][i - 1];
    }
  }

  lemma ParseUintValue(s: string)
    requires |s| > 0 && AllDigits(s)
    ensures ParseUint(s) == if DecimalValue(s) <= MaxUint64 then Scanned(DecimalValue(s)) else ScanRange
  {
    assert s[..0] == "" && s[0..] == s;
    ScanDigitsValue(s, 0);
  }

  /**
   `Atoi` succeeds exactly on numerals whose value fits in an int64, and then
   returns that value.
   */
  lemma AtoiAccepts(s: string)
    ensures Atoi(s).1 == None <==> IsNumeral(s) && MinInt64 <= NumeralValue(s) <= MaxInt64
    ensures Atoi(s).1 == None ==> Atoi(s).0 == NumeralValue(s)
  {
    if |s| > 0 {
      var m := Magnitude(s);
      if IsNumeral(s) {
        ParseUintValue(m);
      } else if |m| > 0 && ScanDigits(m, 0).Scanned? {
        ScannedAllDigits(m, 0);
      }
    }
  }

  /** A numeral outside the int64 range is a range error clamped to the bound on its side. */
  lemma AtoiRange(s: string)
    requires IsNumeral(s)
    requires NumeralValue(s) < MinInt64 || NumeralValue(s) > MaxInt64
    ensures Atoi(s) == (if s[0] == '-' then MinInt64 else MaxInt64, Some(ErrRange))
  {
    ParseUintValue(Magnitude(s));
  }

  /** `Atoi` inverts `Itoa`: every int64 survives a trip through its decimal form. */
  lemma AtoiItoa(n: Int64)
    ensures Atoi(Itoa(n)) == (n, None)
  {
    var s := Itoa(n);
    if n < 0 {
      var m: nat := 0 - n;
      DigitsValue(m);
      assert s[0] == '-' && s[1..] == Digits(m);
      assert Magnitude(s) == Digits(m);
      assert NumeralValue(s) == n;
    } else {
      var m: nat := n;
      DigitsValue(m);
      assert IsDigit(s[0]);
      assert Magnitude(s) == s;
      assert NumeralValue(s) == n;
    }
    AtoiAccepts(s);
  }
}
