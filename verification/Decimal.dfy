/** Decimal numbers as the C library prints and reads them. */
module Decimal {
  import opened Wrappers

  const INT64_MAX: int := 0x7FFF_FFFF_FFFF_FFFF
  const UINT64_MAX: int := 0xFFFF_FFFF_FFFF_FFFF
  const TWO_TO_32: int := 0x1_0000_0000

  predicate IsDigit(c: char) { '0' <= c <= '9' }

  predicate IsSpace(c: char) { c == ' ' || '\t' <= c <= '\r' }

  function DigitOf(n: nat): char
    requires n < 10
  {
    '0' + n as char
  }

  /** `%d` for a non-negative number. */
  function Print(n: nat): string {
    if n < 10 then [DigitOf(n)] else Print(n / 10) + [DigitOf(n % 10)]
  }

  /** Read digits up to the first other character, on top of `acc`. */
  function ReadDigits(s: string, acc: nat): nat {
    if s == "" || !IsDigit(s[0]) then acc
    else ReadDigits(s[1..], acc * 10 + (s[0] as int - '0' as int))
  }

  function SkipSpace(s: string): string {
    if s != "" && IsSpace(s[0]) then SkipSpace(s[1..]) else s
  }

  /** The sign and the magnitude that a string starts with; 0 if it starts with no number. */
  function ReadSigned(s: string): (bool, nat) {
    var t := SkipSpace(s);
    if t != "" && (t[0] == '-' || t[0] == '+') then (t[0] == '-', ReadDigits(t[1..], 0))
    else (false, ReadDigits(t, 0))
  }

  /** `strtol (s, NULL, 10)` with 64-bit `long`. */
  function Strtol(s: string): int {
    var (negative, magnitude) := ReadSigned(s);
    var n: int := if negative then -(magnitude as int) else magnitude as int;
    if n < -INT64_MAX - 1 then -INT64_MAX - 1
    else if n > INT64_MAX then INT64_MAX
    else n
  }

  /** `strtoul (s, NULL, 10)`; `None` where it sets `errno`. */
  function Strtoul(s: string): Option<nat> {
    var (negative, n) := ReadSigned(s);
    if n > UINT64_MAX then None
    else if negative && n > 0 then Some(UINT64_MAX + 1 - n)
    else Some(n)
  }

  /** The value kept by a conversion to `guint`. */
  function AsUint32(n: int): nat { n % TWO_TO_32 }

  /** `atoi`: `strtol` cut to a 32-bit `int`. */
  function Atoi(s: string): int {
    var n := AsUint32(Strtol(s));
    if n >= TWO_TO_32 / 2 then n - TWO_TO_32 else n
  }

  predicate AllDigits(s: string) { forall i :: 0 <= i < |s| ==> IsDigit(s[i]) }

  lemma PrintIsDigits(n: nat)
    ensures Print(n) != "" && AllDigits(Print(n))
  {
  }

  lemma {:induction false} ReadDigitsAppend(a: string, b: string, acc: nat)
    requires AllDigits(a)
    ensures ReadDigits(a + b, acc) == ReadDigits(b, ReadDigits(a, acc))
    decreases |a|
  {
    if a == "" {
      assert a + b == b;
    } else {
      assert (a + b)[1..] == a[1..] + b;
      ReadDigitsAppend(a[1..], b, acc * 10 + (a[0] as int - '0' as int));
    }
  }

  lemma {:induction false} ReadPrinted(n: nat)
    ensures ReadDigits(Print(n), 0) == n
  {
    if n >= 10 {
      ReadPrinted(n / 10);
      PrintIsDigits(n / 10);
      ReadDigitsAppend(Print(n / 10), [DigitOf(n % 10)], 0);
    }
  }

  /** A printed number is read back, by every reader, whenever it fits. */
  lemma ReadBack(n: nat)
    ensures n <= INT64_MAX ==> Strtol(Print(n)) == n
    ensures n <= UINT64_MAX ==> Strtoul(Print(n)) == Some(n)
    ensures n < TWO_TO_32 / 2 ==> Atoi(Print(n)) == n
  {
    PrintIsDigits(n);
    ReadPrinted(n);
    assert IsDigit(Print(n)[0]);
    assert SkipSpace(Print(n)) == Print(n);
  }

  predicate AllSpaces(s: string) { forall i :: 0 <= i < |s| ==> IsSpace(s[i]) }

  lemma {:induction false} SkipsSpaces(blanks: string, t: string)
    requires AllSpaces(blanks) && (t == "" || !IsSpace(t[0]))
    ensures SkipSpace(blanks + t) == t
    decreases |blanks|
  {
    if blanks == "" {
      assert blanks + t == t;
    } else {
      assert (blanks + t)[1..] == blanks[1..] + t;
      SkipsSpaces(blanks[1..], t);
    }
  }

  lemma DigitsEnd(digits: string, rest: string)
    requires AllDigits(digits) && (rest == "" || !IsDigit(rest[0]))
    ensures ReadDigits(digits + rest, 0) == ReadDigits(digits, 0)
  {
    ReadDigitsAppend(digits, rest, 0);
  }

  /** Blanks, a sign, digits, and anything after them: the sign and the number. */
  lemma SignAndNumber(blanks: string, sign: string, digits: string, rest: string)
    requires AllSpaces(blanks) && AllDigits(digits) && (rest == "" || !IsDigit(rest[0]))
    requires sign == "-" || sign == "+" || (sign == "" && digits != "")
    ensures ReadSigned(blanks + (sign + (digits + rest))) == (sign == "-", ReadDigits(digits, 0))
  {
    var t := sign + (digits + rest);
    SkipsSpaces(blanks, t);
    DigitsEnd(digits, rest);
    if sign == "" {
      assert t == digits + rest && IsDigit(t[0]);
    } else {
      assert t[1..] == digits + rest;
    }
  }

  /** `atoi` keeps the lower 32 bits. */
  lemma AtoiWraps(s: string)
    ensures -(TWO_TO_32 / 2) <= Atoi(s) < TWO_TO_32 / 2
    ensures exists k: int :: Strtol(s) == Atoi(s) + k * TWO_TO_32
  {
    var n := Strtol(s);
    var q := n / TWO_TO_32;
    assert n == AsUint32(n) + q * TWO_TO_32;
    if AsUint32(n) >= TWO_TO_32 / 2 {
      assert n == Atoi(s) + (q + 1) * TWO_TO_32;
    }
  }

  /** A number after blanks and a sign is read as it is, and cut to the range of the reader: the nearest
      64-bit number for `strtol`, and an error or the number below 2^64 for `strtoul`. */
  lemma ReadsNumbers(blanks: string, sign: string, n: nat, rest: string)
    requires AllSpaces(blanks) && (sign == "" || sign == "-" || sign == "+") && (rest == "" || !IsDigit(rest[0]))
    ensures var s, value: int := blanks + (sign + (Print(n) + rest)), if sign == "-" then 0 - n else n;
      && Strtol(s) == (
           if value > INT64_MAX then INT64_MAX else if value < -INT64_MAX - 1 then -INT64_MAX - 1 else value)
      && Strtoul(s) == if n > UINT64_MAX then None else if value < 0 then Some(UINT64_MAX + 1 - n) else Some(n)
  {
    PrintIsDigits(n);
    ReadPrinted(n);
    SignAndNumber(blanks, sign, Print(n), rest);
  }

  /** Where no digits come, 0 is read. */
  lemma ReadsNothing(blanks: string, sign: string, rest: string)
    requires AllSpaces(blanks) && (sign == "-" || sign == "+") && (rest == "" || !IsDigit(rest[0]))
    ensures Strtol(blanks + (sign + ("" + rest))) == 0 && Strtoul(blanks + (sign + ("" + rest))) == Some(0)
    ensures Strtol("") == 0 && Strtoul("") == Some(0)
  {
    SignAndNumber(blanks, sign, "", rest);
  }
}
