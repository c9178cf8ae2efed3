/**
 * strconv.ParseUint(s, 10, 64) from Go's standard library: a left-to-right
 * scan of decimal digits that stops at the first character that is not a
 * digit (syntax error, value 0) or at the first digit that would take the
 * value past 2^64 - 1 (range error, value 2^64 - 1). No sign, no spaces,
 * no prefix and no underscores are accepted with base 10.
 */
module Strconv {
  import opened Wrappers
  import opened Text

  const MaxUint64: nat := 0xFFFF_FFFF_FFFF_FFFF

  /** The smallest n for which n * 10 no longer fits in 64 bits. */
  const Cutoff: nat := MaxUint64 / 10 + 1

  datatype NumErrorKind = ErrSyntax | ErrRange

  /** Go's *strconv.NumError: the input that failed and why. */
  datatype NumError = NumError(num: string, kind: NumErrorKind)

  datatype Parsed = Parsed(value: nat, err: Option<NumError>)

  /** Where the digit scan ends: a value, a non-digit, or an overflow. */
  datatype Scan = Value(n: nat) | BadSyntax | TooLarge

  predicate AllDigits(s: string) {
    forall i :: 0 <= i < |s| ==> IsDigit(s[i])
  }

  /**
   * The digit loop of ParseUint from accumulated value n. In Go the
   * multiplication and addition are on uint64; the guard n >= Cutoff and
   * the test n1 > MaxUint64 are where Go detects wrap-around.
   */
  function ScanDigits(s: string, n: nat): (r: Scan)
    requires n <= MaxUint64
    ensures r.Value? ==> AllDigits(s) && n <= r.n <= MaxUint64
    ensures !AllDigits(s) ==> !r.Value?
    decreases |s|
  {
    if s == [] then
      Value(n)
    else if !IsDigit(s[0]) then
      BadSyntax
    else if n >= Cutoff then
      TooLarge
    else
      var n1 := n * 10 + DigitValue(s[0]);
      if n1 > MaxUint64 then
        TooLarge
      else
        var r := ScanDigits(s[1..], n1);
        assert r.Value? ==> AllDigits([s[0]] + s[1..]);
        assert [s[0]] + s[1..] == s;
        r
  }

  /** strconv.ParseUint(s, 10, 64). */
  function ParseUint(s: string): (r: Parsed)
    ensures r.err.None? ==> s != [] && AllDigits(s) && r.value <= MaxUint64
    ensures r.err.Some? ==> r.err.value.num == s
    ensures r.err.Some? && r.err.value.kind == ErrSyntax ==> r.value == 0
    ensures r.err.Some? && r.err.value.kind == ErrRange ==> r.value == MaxUint64
    ensures r.value <= MaxUint64
    ensures s == [] || !IsDigit(s[0]) ==> r == Parsed(0, Some(NumError(s, ErrSyntax)))
  {
    if s == [] then
      Parsed(0, Some(NumError(s, ErrSyntax)))
    else
      match ScanDigits(s, 0)
      case Value(n) => Parsed(n, None)
      case BadSyntax => Parsed(0, Some(NumError(s, ErrSyntax)))
      case TooLarge => Parsed(MaxUint64, Some(NumError(s, ErrRange)))
  }

  /** Scanning one more character continues from wherever the scan of the prefix ended. */
  lemma {:induction false} ScanDigitsSnoc(s: string, c: char, n: nat)
    requires n <= MaxUint64
    ensures ScanDigits(s + [c], n) ==
      match ScanDigits(s, n)
      case Value(v) => ScanDigits([c], v)
      case e => e
    decreases |s|
  {
    if s == [] {
      assert s + [c] == [c];
    } else {
      assert (s + [c])[0] == s[0];
      assert (s + [c])[1..] == s[1..] + [c];
      if IsDigit(s[0]) && n < Cutoff && n * 10 + DigitValue(s[0]) <= MaxUint64 {
        ScanDigitsSnoc(s[1..], c, n * 10 + DigitValue(s[0]));
      }
    }
  }

  /** The digits of n, scanned from zero, give back n. */
  lemma {:induction false} ScanDecimal(n: nat)
    requires n <= MaxUint64
    ensures ScanDigits(Decimal(n), 0) == Value(n)
    decreases n
  {
    if n >= 10 {
      ScanDecimal(n / 10);
      ScanDigitsSnoc(Decimal(n / 10), DigitChar(n % 10), 0);
      assert n / 10 < Cutoff;
      assert ScanDigits([DigitChar(n % 10)], n / 10) == ScanDigits([], n / 10 * 10 + n % 10);
    }
  }

  /** Round trip with fmt's %d: every uint64 printed in decimal parses back to itself without error. */
  lemma ParseUintDecimal(n: nat)
    requires n <= MaxUint64
    ensures ParseUint(Decimal(n)) == Parsed(n, None)
  {
    ScanDecimal(n);
  }

  /** A sign, a leading space or an empty token is a syntax error that yields 0. */
  lemma ParseUintRejectsSignsAndSpaces(t: string)
    ensures ParseUint([]).err == Some(NumError([], ErrSyntax)) && ParseUint([]).value == 0
    ensures ParseUint(['+'] + t) == Parsed(0, Some(NumError(['+'] + t, ErrSyntax)))
    ensures ParseUint(['-'] + t) == Parsed(0, Some(NumError(['-'] + t, ErrSyntax)))
    ensures ParseUint([' '] + t) == Parsed(0, Some(NumError([' '] + t, ErrSyntax)))
  {
  }

  /** The value a string of decimal digits denotes, leading zeros included, with no bound. */
  function DigitsValue(s: string): nat
    requires AllDigits(s)
  {
    if s == [] then 0 else DigitsValue(s[..|s| - 1]) * 10 + DigitValue(s[|s| - 1])
  }

  /** The digit scan from zero either reaches the value of the digits or, exactly when it exceeds 2^64 - 1, overflows. */
  lemma {:induction false} ScanDigitsValue(s: string)
    requires AllDigits(s)
    ensures ScanDigits(s, 0) == if DigitsValue(s) <= MaxUint64 then Value(DigitsValue(s)) else TooLarge
    decreases |s|
  {
    if s != [] {
      var p, c := s[..|s| - 1], s[|s| - 1];
      assert s == p + [c];
      ScanDigitsValue(p);
      ScanDigitsSnoc(p, c, 0);
    }
  }

  /**
   * ParseUint on every non-empty string of digits: the value of the digits
   * when it fits in 64 bits, otherwise a range error with 2^64 - 1.
   */
  lemma ParseUintDigits(s: string)
    requires s != [] && AllDigits(s)
    ensures ParseUint(s) ==
      if DigitsValue(s) <= MaxUint64 then Parsed(DigitsValue(s), None)
      else Parsed(MaxUint64, Some(NumError(s, ErrRange)))
  {
    ScanDigitsValue(s);
  }

  /** 2^64 = 18446744073709551616 is one past the largest uint64: a range error that yields 2^64 - 1. */
  lemma ParseUintOverflow()
    ensures ParseUint(Decimal(MaxUint64 + 1)) == Parsed(MaxUint64, Some(NumError(Decimal(MaxUint64 + 1), ErrRange)))
  {
    var s := Decimal(MaxUint64 + 1);
    var p := Decimal((MaxUint64 + 1) / 10);
    assert s == p + [DigitChar(6)];
    ScanDecimal((MaxUint64 + 1) / 10);
    ScanDigitsSnoc(p, DigitChar(6), 0);
  }
}
