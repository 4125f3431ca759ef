/**
 Number text as the kernel's simple_strtol, match_int and match_octal read it and printf writes
 it. These live outside the repository; fs/inode_orig.c relies on them.
 */
module Numbers {
  import opened Common

  const LONG_MODULUS: int := 0x1_0000_0000_0000_0000
  const INT_MAX: int := 0x7FFF_FFFF
  const INT_MIN: int := -0x8000_0000

  function Digit(c: char): Option<nat> {
    if '0' <= c <= '9' then Some(c as int - '0' as int)
    else if 'a' <= c <= 'f' then Some(c as int - 'a' as int + 10)
    else if 'A' <= c <= 'F' then Some(c as int - 'A' as int + 10)
    else None
  }

  predicate IsDigit(c: char, base: nat) {
    Digit(c).Some? && Digit(c).value < base
  }

  predicate AllDigits(s: string, base: nat) {
    forall i :: 0 <= i < |s| ==> IsDigit(s[i], base)
  }

  function Value(s: string, base: nat): nat
    requires AllDigits(s, base)
    decreases |s|
  {
    if s == [] then 0 else Value(s[..|s| - 1], base) * base + Digit(s[|s| - 1]).value
  }

  /** Base 0: a leading 0x means 16, a leading 0 means 8, else 10. */
  function GuessBase(s: string): nat {
    if |s| >= 3 && s[0] == '0' && (s[1] == 'x' || s[1] == 'X') && IsDigit(s[2], 16) then 16
    else if |s| >= 1 && s[0] == '0' then 8
    else 10
  }

  function Unprefixed(s: string): string {
    if GuessBase(s) == 16 then s[2..] else s
  }

  /** `s` as a whole is an unsigned number in base-0 notation. */
  predicate IsUnsigned(s: string) {
    s != [] && AllDigits(Unprefixed(s), GuessBase(s))
  }

  predicate IsSigned(s: string) {
    IsUnsigned(s) || (s != [] && s[0] == '-' && IsUnsigned(s[1..]))
  }

  predicate IsOctal(s: string) {
    s != [] && AllDigits(s, 8)
  }

  /** A long keeps 64 bits of its value. */
  function ToLong(x: int): int {
    (x + LONG_MODULUS / 2) % LONG_MODULUS - LONG_MODULUS / 2
  }

  function InInt(x: int): Option<int> {
    if INT_MIN <= x <= INT_MAX then Some(x) else None
  }

  function MatchInt(s: string): Option<int>
    requires IsSigned(s)
  {
    InInt(ToLong(if s[0] == '-' then 0 - Value(Unprefixed(s[1..]), GuessBase(s[1..]))
                 else Value(Unprefixed(s), GuessBase(s))))
  }

  function MatchOctal(s: string): Option<int>
    requires IsOctal(s)
  {
    InInt(ToLong(Value(s, 8)))
  }

  // ---- printing ----

  function DigitChar(d: nat): char
    requires d < 10
  {
    ('0' as int + d) as char
  }

  /** %u, %d and %o of a number that is not negative. */
  function Print(n: nat, base: nat): (s: string)
    requires 2 <= base <= 10
    ensures s != []
    decreases n
  {
    if n < base then [DigitChar(n)] else Print(n / base, base) + [DigitChar(n % base)]
  }

  /** %03o. */
  function PrintOctal3(n: nat): string {
    var s := Print(n, 8);
    if |s| == 1 then "00" + s else if |s| == 2 then "0" + s else s
  }

  // ---- reading back what was printed ----

  lemma DigitCharIsDigit(d: nat, base: nat)
    requires d < base <= 10
    ensures IsDigit(DigitChar(d), base) && Digit(DigitChar(d)).value == d
    ensures '0' <= DigitChar(d) <= '9' && (d > 0 ==> DigitChar(d) != '0')
  {
  }

  /** One more digit on the right. */
  lemma Append(s: string, c: char, base: nat)
    requires AllDigits(s, base) && IsDigit(c, base)
    ensures AllDigits(s + [c], base) && Value(s + [c], base) == Value(s, base) * base + Digit(c).value
  {
    assert (s + [c])[..|s|] == s;
  }

  lemma DivMod(n: nat, base: nat)
    requires base > 0
    ensures n / base * base + n % base == n && n % base < base && (n >= base ==> n / base > 0)
  {
  }

  lemma {:induction false} PrintDigits(n: nat, base: nat)
    requires 2 <= base <= 10
    ensures AllDigits(Print(n, base), base) && Value(Print(n, base), base) == n
    decreases n
  {
    hide IsDigit, Digit, DigitChar;
    if n < base {
      DigitCharIsDigit(n, base);
      Append("", DigitChar(n), base);
      assert "" + [DigitChar(n)] == [DigitChar(n)];
    } else {
      PrintDigits(n / base, base);
      DivMod(n, base);
      DigitCharIsDigit(n % base, base);
      Append(Print(n / base, base), DigitChar(n % base), base);
    }
  }

  /** What is printed are the characters 0 to 9, without a leading 0 unless the number is 0. */
  lemma {:induction false} PrintShape(n: nat, base: nat)
    requires 2 <= base <= 10
    ensures forall i :: 0 <= i < |Print(n, base)| ==> '0' <= Print(n, base)[i] <= '9'
    ensures n > 0 ==> Print(n, base)[0] != '0'
    decreases n
  {
    if n >= base {
      PrintShape(n / base, base);
      DivMod(n, base);
      DigitCharIsDigit(n % base, base);
    }
  }

  /** Decimal text reads back as the same number in base-0 notation, unless it exceeds an int. */
  lemma DecimalReadsBack(n: nat)
    requires n < LONG_MODULUS / 2
    ensures var s := Print(n, 10);
            IsUnsigned(s) && MatchInt(s) == if n <= INT_MAX then Some(n) else None
  {
    hide Print, Value, IsDigit, ToLong;
    var s := Print(n, 10);
    FitsLong(n);
    PrintDigits(n, 10);
    PrintShape(n, 10);
    if n == 0 {
      ZeroReadsBack();
    } else {
      assert GuessBase(s) == 10 && Unprefixed(s) == s;
    }
  }

  lemma FitsLong(x: int)
    requires -(LONG_MODULUS / 2) <= x < LONG_MODULUS / 2
    ensures ToLong(x) == x
  {
  }

  lemma ZeroReadsBack()
    ensures IsUnsigned(Print(0, 10)) && MatchInt(Print(0, 10)) == Some(0)
  {
    var s := Print(0, 10);
    assert s == "" + ['0'];
    Append("", '0', 8);
  }

  lemma {:induction false} LeadingZero(s: string, base: nat)
    requires base >= 1 && AllDigits(s, base)
    ensures AllDigits("0" + s, base) && Value("0" + s, base) == Value(s, base)
    decreases |s|
  {
    var z := "0" + s;
    if s == [] {
      assert z[..0] == "";
    } else {
      assert z[..|z| - 1] == "0" + s[..|s| - 1];
      LeadingZero(s[..|s| - 1], base);
    }
  }

  lemma OctalReadsBack(n: nat)
    requires n <= INT_MAX
    ensures IsOctal(PrintOctal3(n)) && MatchOctal(PrintOctal3(n)) == Some(n)
    ensures forall i :: 0 <= i < |PrintOctal3(n)| ==> '0' <= PrintOctal3(n)[i] <= '9'
  {
    hide Print, Value, IsDigit;
    var s := Print(n, 8);
    PrintDigits(n, 8);
    PrintShape(n, 8);
    LeadingZero(s, 8);
    LeadingZero("0" + s, 8);
    assert "00" + s == "0" + ("0" + s);
  }

  // ---- what text means, whoever wrote it ----

  lemma DigitValues(d: nat)
    requires d < 6
    ensures Digit('a' + d as char) == Some(10 + d) && Digit('A' + d as char) == Some(10 + d)
    ensures Digit('0' + d as char) == Some(d)
  {
  }

  /** A long is the number modulo 2^64, between -2^63 and 2^63 - 1. */
  lemma LongExactly(x: int)
    ensures -0x8000_0000_0000_0000 <= ToLong(x) < 0x8000_0000_0000_0000
    ensures (x - ToLong(x)) % 0x1_0000_0000_0000_0000 == 0
  {
  }

  /** What a number that match_int or match_octal has read as `x` becomes: the same, if what is left of
      it in a long is an int. */
  predicate IsRead(x: int, r: Option<int>) {
    r == if -0x8000_0000 <= ToLong(x) <= 0x7FFF_FFFF then Some(ToLong(x)) else None
  }

  /** Digits are decimal, behind a 0 they are octal, and behind 0x, in either case, hexadecimal. */
  lemma IntText(s: string)
    requires s != []
    ensures AllDigits(s, 10) && s[0] != '0' ==> IsUnsigned(s) && IsRead(Value(s, 10), MatchInt(s))
    ensures AllDigits(s, 8) ==> IsUnsigned("0" + s) && IsRead(Value(s, 8), MatchInt("0" + s))
    ensures AllDigits(s, 16) ==>
              && IsUnsigned("0x" + s) && IsRead(Value(s, 16), MatchInt("0x" + s))
              && IsUnsigned("0X" + s) && IsRead(Value(s, 16), MatchInt("0X" + s))
  {
    hide Value, ToLong;
    if AllDigits(s, 8) {
      LeadingZero(s, 8);
      assert ("0" + s)[1] == s[0] && s[0] != 'x' && s[0] != 'X';
    }
    if AllDigits(s, 16) {
      assert ("0x" + s)[2] == s[0] && ("0X" + s)[2] == s[0] && ("0x" + s)[2..] == s && ("0X" + s)[2..] == s;
    }
  }

  /** A minus sign negates; %u takes none. */
  lemma NegativeText(s: string)
    requires IsUnsigned(s)
    ensures IsSigned("-" + s) && !IsUnsigned("-" + s)
    ensures IsRead(0 - Value(Unprefixed(s), GuessBase(s)), MatchInt("-" + s))
  {
    hide Value, ToLong;
    assert ("-" + s)[1..] == s;
  }

  /** Anything else among the digits, or nothing at all, is no number. */
  lemma NoNumber(s: string, i: nat)
    ensures !IsUnsigned("") && !IsSigned("") && !IsSigned("-") && !IsOctal("")
    ensures i < |s| && Digit(s[i]).None? && s[i] != 'x' && s[i] != 'X' ==> !IsUnsigned(s) && !IsOctal(s)
  {
    if i < |s| && Digit(s[i]).None? && s[i] != 'x' && s[i] != 'X' && GuessBase(s) == 16 {
      assert i >= 2 && s[2..][i - 2] == s[i];
    }
    assert "-"[1..] == "";
  }

  lemma OctalText(s: string)
    requires IsOctal(s)
    ensures IsRead(Value(s, 8), MatchOctal(s))
  {
    hide Value;
  }

  /** %03o: three digits at least, and no more zeros in front than that takes. */
  lemma {:induction false} OctalWidth(n: nat)
    ensures |PrintOctal3(n)| >= 3 && (|PrintOctal3(n)| > 3 ==> PrintOctal3(n)[0] != '0')
  {
    PrintShape(n, 8);
  }
}
