/** Go's `strconv.Atoi` as the handlers use it: `n, _ := strconv.Atoi(s)`,
    that is, with the error dropped. After an optional sign the digits are
    read left to right. The first digit that takes the value past 2^64-1
    stops the scan with a range error, and Atoi then yields the 64-bit bound
    of the sign. The first other character stops it with a syntax error,
    and Atoi yields 0. A value that fits in 64 unsigned bits but not in
    `int` also yields the bound of its sign. */
module Strconv {
  import opened Base

  const MaxUint64: int := 0xFFFF_FFFF_FFFF_FFFF

  predicate IsDigit(c: char) { '0' <= c <= '9' }

  predicate AllDigits(s: string) { forall i :: 0 <= i < |s| ==> IsDigit(s[i]) }

  function DigitValue(c: char): nat
    requires IsDigit(c)
  {
    c as int - '0' as int
  }

  /** The number a run of decimal digits denotes, most significant first. */
  function DigitsValue(s: string): nat
    requires AllDigits(s)
  {
    if s == [] then 0 else 10 * DigitsValue(s[..|s| - 1]) + DigitValue(s[|s| - 1])
  }

  /** A leading '+' or '-' is a sign. */
  predicate HasSign(s: string) { |s| > 0 && (s[0] == '+' || s[0] == '-') }

  /** The text after the sign, which the digit scan reads. */
  function Unsigned(s: string): string
  {
    if HasSign(s) then s[1..] else s
  }

  /** The longest prefix of `s` made of digits: what the scan reads before
      it meets anything else. */
  function DigitRun(s: string): (r: string)
    ensures r <= s && AllDigits(r)
    ensures |r| < |s| ==> !IsDigit(s[|r|])
  {
    if s == [] || !IsDigit(s[0]) then [] else [s[0]] + DigitRun(s[1..])
  }

  /** `int(v)` or `int(-v)`, held to the 64-bit range as `ParseInt` does. */
  function Clamp(negative: bool, v: nat): int64
  {
    var w: int := v;
    if negative then (if -w < MinInt64 then MinInt64 else -w)
    else (if w > MaxInt64 then MaxInt64 else w)
  }

  /** The result of `strconv.Atoi(s)` with its error ignored. */
  function Atoi(s: string): int64
  {
    var digits := Unsigned(s);
    var run := DigitRun(digits);
    var negative := HasSign(s) && s[0] == '-';
    if DigitsValue(run) > MaxUint64 then Clamp(negative, DigitsValue(run))
    else if digits == [] || run != digits then 0
    else Clamp(negative, DigitsValue(digits))
  }

  function Digit(d: nat): (c: char)
    requires d < 10
    ensures IsDigit(c) && DigitValue(c) == d
  {
    ('0' as int + d) as char
  }

  /** Decimal notation of a natural number, without leading zeros. */
  function Decimal(n: nat): (s: string)
    ensures s != [] && AllDigits(s)
    ensures |s| > 1 ==> s[0] != '0'
  {
    if n < 10 then [Digit(n)] else Decimal(n / 10) + [Digit(n % 10)]
  }

  /** `strconv.Itoa`, the notation a client puts in a URL for an id. */
  function Itoa(n: int64): string
  {
    if n < 0 then "-" + Decimal(-(n as int)) else Decimal(n)
  }

  lemma {:induction false} DecimalValue(n: nat)
    ensures DigitsValue(Decimal(n)) == n
  {
    if n >= 10 {
      var s := Decimal(n);
      assert s[..|s| - 1] == Decimal(n / 10);
      DecimalValue(n / 10);
    }
  }

  lemma {:induction false} DigitRunOfDigits(s: string)
    requires AllDigits(s)
    ensures DigitRun(s) == s
  {
    if s != [] {
      DigitRunOfDigits(s[1..]);
    }
  }

  /** Every int64 written in decimal is read back as itself. */
  lemma AtoiItoa(n: int64)
    ensures Atoi(Itoa(n)) == n
  {
    var s := Itoa(n);
    if n < 0 {
      var m: nat := -(n as int);
      assert Unsigned(s) == Decimal(m);
      DecimalValue(m);
      DigitRunOfDigits(Decimal(m));
    } else {
      assert IsDigit(s[0]);
      DecimalValue(n);
      DigitRunOfDigits(Decimal(n));
    }
  }

  /** A character that is neither a digit nor a leading sign makes Atoi
      yield 0, so a non-numeric path segment is read as id 0, unless the
      digits read before it already exceed 2^64-1. */
  lemma AtoiSyntaxError(s: string, i: nat)
    requires i < |s| && !IsDigit(s[i])
    requires i == 0 ==> !HasSign(s)
    requires DigitsValue(DigitRun(Unsigned(s))) <= MaxUint64
    ensures Atoi(s) == 0
  {
    var digits := Unsigned(s);
    var k := if HasSign(s) then i - 1 else i;
    assert k < |digits| && digits[k] == s[i];
    assert !AllDigits(digits);
  }

  /** Digits past 2^64-1 make Atoi yield the bound of the sign whatever
      follows them, a character that is not a digit included. */
  lemma AtoiRangeError(s: string, rest: string)
    requires AllDigits(Unsigned(s)) && DigitsValue(Unsigned(s)) > MaxUint64
    ensures Atoi(s + rest) == (if HasSign(s) && s[0] == '-' then MinInt64 else MaxInt64)
  {
    var digits := Unsigned(s);
    assert Unsigned(s + rest) == digits + rest;
    DigitRunPrefix(digits, rest);
    DigitsValuePrefix(DigitRun(digits + rest), digits);
  }

  /** The digit run of `s + rest` starts with the whole of `s` when `s` is
      all digits. */
  lemma {:induction false} DigitRunPrefix(s: string, rest: string)
    requires AllDigits(s)
    ensures s <= DigitRun(s + rest)
  {
    if s != [] {
      assert (s + rest)[1..] == s[1..] + rest;
      DigitRunPrefix(s[1..], rest);
    }
  }

  /** Reading more digits never lowers the value. */
  lemma {:induction false} DigitsValuePrefix(s: string, p: string)
    requires AllDigits(s) && p <= s
    ensures AllDigits(p) && DigitsValue(p) <= DigitsValue(s)
  {
    if |p| < |s| {
      assert p <= s[..|s| - 1];
      DigitsValuePrefix(s[..|s| - 1], p);
      assert DigitsValue(s[..|s| - 1]) <= DigitsValue(s);
    } else {
      assert p == s;
    }
  }

  function Pow10(k: nat): nat
  {
    if k == 0 then 1 else 10 * Pow10(k - 1)
  }

  lemma {:induction false} Pow10Add(a: nat, b: nat)
    ensures Pow10(a + b) == Pow10(a) * Pow10(b)
  {
    if a > 0 {
      Pow10Add(a - 1, b);
    }
  }

  /** `k` nines denote 10^k - 1. */
  lemma {:induction false} NinesValue(k: nat)
    ensures AllDigits(seq(k, _ => '9')) && DigitsValue(seq(k, _ => '9')) == Pow10(k) - 1
  {
    if k > 0 {
      var s: string := seq(k, _ => '9');
      assert s[..k - 1] == seq(k - 1, _ => '9');
      NinesValue(k - 1);
    }
  }

  /** Twenty nines followed by a letter: the range error comes first, so the
      id is the largest `int`, not 0. */
  lemma OverflowBeforeBadCharacter()
    ensures Atoi("99999999999999999999x") == MaxInt64
  {
    var nines: string := seq(20, _ => '9');
    NinesValue(20);
    calc {
      Pow10(20);
    == { Pow10Add(10, 10); }
      Pow10(10) * Pow10(10);
    == { Pow10Add(5, 5); assert Pow10(5) == 100000; }
      100000000000000000000;
    }
    assert nines + "x" == "99999999999999999999x";
    AtoiRangeError(nines, "x");
  }
}
