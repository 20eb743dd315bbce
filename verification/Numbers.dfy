/** Numbers as text: the AVR conversion functions, Print::printNumber and Stream::parseInt.
    `unsigned long` has 64 bits and `int` 32. */
module Numbers {
  import opened Common

  const NUL: char := '\0'
  const TWO32: nat := 0x1_0000_0000
  const TWO64: nat := 0x1_0000_0000_0000_0000
  const LONG_MAX: nat := 0x7fff_ffff_ffff_ffff

  // ---------------------------------------------------------------- numerals

  /** The character of a digit, in a signed `char`. Beyond the letters it is whatever the sum gives. */
  function DigitChar(d: nat): char
    requires d < 256
  {
    if 9 < d < 128 then ('A' as int + (d - 10)) as char else (('0' as int + d) % 256) as char
  }

  function DigitValue(c: char): nat {
    if '0' <= c <= '9' then c as int - '0' as int
    else if 'A' <= c <= 'Z' then c as int - 'A' as int + 10
    else 99
  }

  lemma DigitsMatch(d: nat, c: char)
    ensures d < 36 ==> DigitValue(DigitChar(d)) == d && (DigitChar(d) == '0' <==> d == 0)
    ensures DigitValue(c) < 36 ==> DigitChar(DigitValue(c)) == c
  {
  }

  /** The digits of all bases up to 36, as a table. */
  const DIGITS: string := "0123456789ABCDEFGHIJKLMNOPQRSTUVWXYZ"

  /** A digit is written as, and a character is worth, its place in the table. */
  lemma DigitIsTabled(d: nat, c: char)
    requires d < 36
    ensures |DIGITS| == 36 && DigitChar(d) == DIGITS[d] && (DigitValue(c) == d <==> DIGITS[d] == c)
  {
  }

  /** The number a text stands for. */
  function Value(s: string, base: nat): nat {
    if s == "" then 0 else Value(s[..|s| - 1], base) * base + DigitValue(s[|s| - 1])
  }

  /** Digits of the base, without a leading zero. */
  ghost predicate IsNumeral(s: string, base: nat) {
    && s != "" && (forall i :: 0 <= i < |s| ==> DigitValue(s[i]) < base)
    && (|s| > 1 ==> s[0] != '0')
  }

  ghost predicate IsBase(base: nat) {
    2 <= base <= 36
  }

  /** A base that fits the byte in which Print takes it. */
  ghost predicate IsByteBase(base: nat) {
    2 <= base < 256
  }

  /** n / base and n % base, as functions so that proofs can leave them unevaluated. */
  function Quo(n: nat, base: nat): nat
    requires base > 0
  {
    n / base
  }

  function Rem(n: nat, base: nat): nat
    requires base > 0
  {
    n % base
  }

  function ToText(n: nat, base: nat): (s: string)
    requires 2 <= base < 256
    ensures s != ""
  {
    if n < base then [DigitChar(n)]
    else
      QuotientShrinks(n, base);
      ToText(Quo(n, base), base) + [DigitChar(Rem(n, base))]
  }

  lemma TextOfZero(base: nat)
    requires IsByteBase(base)
    ensures ToText(0, base) == "0"
  {
  }

  lemma QuotientShrinks(n: nat, base: nat)
    requires base >= 2
    ensures 2 * Quo(n, base) <= n && Rem(n, base) < base && n == base * Quo(n, base) + Rem(n, base)
    ensures Quo(n, base) >= 1 <==> n >= base
  {
    var q := n / base;
    assert n == base * q + n % base;
    if base > 2 {
      MulStep(q, base, 2);
    }
    if q >= 1 {
      MulStep(base, q, 0);
    } else {
      assert base * q == 0;
    }
  }

  /** The text of n is a numeral for n. */
  lemma {:induction false} ToTextIsNumeral(n: nat, base: nat)
    requires IsBase(base)
    ensures IsNumeral(ToText(n, base), base) && Value(ToText(n, base), base) == n
    ensures n > 0 ==> ToText(n, base)[0] != '0'
    decreases n
  {
    hide DigitChar, DigitValue, Quo, Rem;
    var s := ToText(n, base);
    if n < base {
      DigitsMatch(n, 'x');
      assert s == [DigitChar(n)] && s[..0] == "";
      assert Value(s, base) == Value(s[..0], base) * base + DigitValue(s[0]);
    } else {
      QuotientShrinks(n, base);
      var q, r := Quo(n, base), Rem(n, base);
      ToTextIsNumeral(q, base);
      DigitsMatch(r, 'x');
      assert s == ToText(q, base) + [DigitChar(r)];
      hide ToText;
      ValueSnoc(ToText(q, base), DigitChar(r), base);
    }
  }

  lemma ValueSnoc(s: string, c: char, base: nat)
    ensures Value(s + [c], base) == base * Value(s, base) + DigitValue(c)
  {
    hide DigitValue;
    var t := s + [c];
    assert t[..|s|] == s && t[|s|] == c;
    assert Value(t, base) == Value(s, base) * base + DigitValue(c);
  }

  /** There is only one numeral for a number. */
  lemma {:induction false} NumeralIsUnique(s: string, base: nat)
    requires IsBase(base) && IsNumeral(s, base)
    ensures s == ToText(Value(s, base), base)
    decreases |s|
  {
    var k := |s| - 1;
    var n, last := Value(s, base), DigitValue(s[k]);
    DigitsMatch(0, s[k]);
    if k == 0 {
      assert s[..0] == "";
      assert n == last;
    } else {
      var front := s[..k];
      var v := Value(front, base);
      NumeralIsUnique(front, base);
      ValueIsPositive(front, base);
      NextDigit(v, last, base);
      assert ToText(n, base) == front + [s[k]];
    }
  }

  lemma NextDigit(v: nat, d: nat, base: nat)
    requires IsBase(base) && d < base && v >= 1
    ensures v * base + d >= base && Quo(v * base + d, base) == v && Rem(v * base + d, base) == d
  {
    DivIs(v * base + d, base, v, d);
    MulStep(base, v, 0);
  }

  lemma {:induction false} ValueIsPositive(s: string, base: nat)
    requires IsBase(base) && s != "" && s[0] != '0' && forall i :: 0 <= i < |s| ==> DigitValue(s[i]) < base
    ensures Value(s, base) >= 1
    decreases |s|
  {
    var k := |s| - 1;
    DigitsMatch(0, s[0]);
    if k == 0 {
      assert s[..0] == "";
    } else {
      ValueIsPositive(s[..k], base);
      MulStep(base, Value(s[..k], base), 0);
    }
  }

  // ---------------------------------------------------------------- the scratch buffer

  function Pow2(k: nat): nat {
    if k == 0 then 1 else 2 * Pow2(k - 1)
  }

  lemma {:induction false} Pow2Sum(a: nat, b: nat)
    ensures Pow2(a + b) == Pow2(a) * Pow2(b)
  {
    if a > 0 { Pow2Sum(a - 1, b); }
  }

  lemma Pow2Of64()
    ensures Pow2(64) == TWO64
  {
    assert Pow2(8) == 0x100;
    Pow2Sum(8, 8);
    Pow2Sum(16, 16);
    Pow2Sum(32, 32);
  }

  /** Dividing a number that needs k binary places leaves one that needs k - 1. */
  lemma QuotientFits(n: nat, base: nat, k: nat)
    requires IsByteBase(base) && n < Pow2(k) && (n > 0 || k > 0)
    ensures k >= 1 && Quo(n, base) < Pow2(k - 1)
  {
    QuotientShrinks(n, base);
  }

  /** The base that is used for the base asked for. */
  function UsedBase(base: int): (b: nat)
    ensures IsBase(b)
  {
    if 36 < base || 2 > base then 10 else base
  }

  const BUFSIZE: nat := 66

  /** The text of what is still to be divided, if anything is. */
  ghost function ToGo(n: nat, b: nat, more: bool): string
    requires IsByteBase(b)
  {
    if more then ToText(n, b) else ""
  }

  lemma AllToGo(u: nat, b: nat)
    requires IsByteBase(b)
    ensures ToGo(u, b, true) + "" == ToText(u, b)
  {
    hide ToText;
  }

  lemma NothingToGo(n: nat, b: nat, t: string)
    requires IsByteBase(b)
    ensures ToGo(n, b, false) + t == t
  {
    assert "" + t == t;
  }

  /** The digits of u backwards into the scratch buffer, the NUL behind them; the result is where
      they begin. A number below 2^64 needs at most 64 places. */
  method FillBackwards(buf: array<char>, u: nat, base: nat) returns (tail: nat, i: nat)
    requires u < TWO64 && IsBase(base) && buf.Length == BUFSIZE
    modifies buf
    ensures 1 <= tail && i == 66 - tail
    ensures buf[tail..66] == ToText(u, base) + [NUL]
  {
    hide ToText;
    tail := BUFSIZE - 1;
    buf[tail] := NUL;
    tail := tail - 1;
    i := 2;
    if u != 0 {
      tail, i := DivideOut(buf, u, base);
    } else {
      buf[tail] := '0';
      TextOfZero(base);
      tail := tail - 1;
    }
    tail := tail + 1;
    assert buf[tail..66] == buf[tail..65] + [NUL];
  }

  /** The loop that takes off one digit after the other. */
  method DivideOut(buf: array<char>, u: nat, base: nat) returns (tail: nat, i: nat)
    requires 0 < u < TWO64 && IsBase(base) && buf.Length == BUFSIZE && buf[65] == NUL
    modifies buf
    ensures tail <= 64 && i == 65 - tail && buf[65] == NUL && buf[tail + 1..65] == ToText(u, base)
  {
    AllToGo(u, base);
    hide DigitChar, ToText, Pow2, Quo, Rem, ToGo;
    tail, i := 64, 1;
    var n: nat := u;
    Pow2Of64();
    assert buf[65..65] == "";
    while n != 0
      invariant tail <= 64 && i == 65 - tail && buf[65] == NUL && n < Pow2(tail)
      invariant ToGo(n, base, n != 0) + buf[tail + 1..65] == ToText(u, base)
      decreases n
    {
      QuotientShrinks(n, base);
      QuotientFits(n, base, tail);
      DigitMoves(n, base, buf[tail + 1..65]);
      var rem := Rem(n, base);
      buf[tail] := DigitChar(rem);
      assert buf[tail..65] == [DigitChar(rem)] + buf[tail + 1..65];
      tail := tail - 1;
      n := Quo(n, base);
      i := i + 1;
    }
    NothingToGo(n, base, buf[tail + 1..65]);
  }

  /** The part that itoa, utoa, ltoa and ultoa share: the text of u and a NUL, at `head`. */
  method WriteDigits(u: nat, str: array<char>, head: nat, base: nat)
    requires u < TWO64 && IsBase(base) && head + |ToText(u, base)| < str.Length
    modifies str
    ensures var t := ToText(u, base) + [NUL];
            str[..] == old(str[..head]) + t + old(str[head + |t|..])
  {
    var buf := new char[BUFSIZE];
    var tail, i := FillBackwards(buf, u, base);
    ghost var t := buf[tail..66];
    forall k | 0 <= k < i {
      str[head + k] := buf[tail + k];
    }
    hide ToText;
    assert str[head..head + i] == t;
  }

  /** Taking the last digit off n and putting it before the digits already taken. */
  lemma DigitMoves(n: nat, base: nat, taken: string)
    requires IsByteBase(base) && n > 0
    ensures Rem(n, base) < base
    ensures ToGo(n, base, true) + taken
            == ToGo(Quo(n, base), base, Quo(n, base) != 0) + ([DigitChar(Rem(n, base))] + taken)
  {
    QuotientShrinks(n, base);
    if n >= base {
      Assoc(ToText(Quo(n, base), base), [DigitChar(Rem(n, base))], taken);
    } else {
      DivIs(n, base, 0, n);
    }
  }

  // ---------------------------------------------------------------- conversions

  type Long = x: int | -0x8000_0000_0000_0000 <= x < 0x8000_0000_0000_0000

  type Int = x: int | -0x8000_0000 <= x < 0x8000_0000

  /** The text of a signed number of a given width: a sign in base 10, two's complement otherwise. */
  function SignedText(n: int, base: int, modulus: nat): string
    requires n + modulus >= 0
  {
    var b := UsedBase(base);
    if b == 10 && n < 0 then "-" + ToText(-n, 10) else ToText(if n < 0 then n + modulus else n, b)
  }

  /** What it is a text of: in base 10, also for a base out of range, the magnitude behind a sign; in any other
      base the number or its two's complement. */
  lemma SignedTextIs(n: int, base: int, modulus: nat)
    requires n + modulus >= 0
    ensures var t, b := SignedText(n, base, modulus), if 2 <= base <= 36 then base else 10;
            && UsedBase(base) == b
            && if b == 10 && n < 0 then
                 |t| > 1 && t[0] == '-' && IsNumeral(t[1..], 10) && Value(t[1..], 10) == 0 - n
               else IsNumeral(t, b) && Value(t, b) == if n < 0 then n + modulus else n
  {
    hide ToText, IsNumeral, Value;
    var b := UsedBase(base);
    if b == 10 && n < 0 {
      ToTextIsNumeral(0 - n, 10);
      assert SignedText(n, base, modulus)[1..] == ToText(0 - n, 10);
    } else {
      ToTextIsNumeral(if n < 0 then n + modulus else n, b);
    }
  }

  /** Unsigned arithmetic on signed numbers: the conversion, and the magnitude of a negative one. */
  lemma UnsignedIs(n: int, modulus: nat)
    requires 0 < modulus && 0 - modulus < n < modulus
    ensures n % modulus == if n < 0 then n + modulus else n
    ensures n < 0 ==> (0 - n % modulus) % modulus == 0 - n
  {
    DivIs(n, modulus, if n < 0 then -1 else 0, if n < 0 then n + modulus else n);
    if n < 0 {
      DivIs(0 - (n + modulus), modulus, -1, 0 - n);
    }
  }

  lemma SignedParts(n: int, base: int, modulus: nat)
    requires n + modulus >= 0
    ensures var b := UsedBase(base);
            SignedText(n, base, modulus)
            == if b == 10 && n < 0 then "-" + ToText(0 - n, 10) else ToText(if n < 0 then n + modulus else n, b)
  {
  }

  /** str begins with t and a NUL, and is otherwise as before. */
  twostate predicate Holds(str: array<char>, t: string)
    reads str
  {
    |t| < str.Length && str[..] == t + [NUL] + old(str[|t| + 1..])
  }

  method Ultoa(n: nat, str: array<char>, base: int)
    requires n < TWO64 && |ToText(n, UsedBase(base))| < str.Length
    modifies str
    ensures Holds(str, ToText(n, UsedBase(base)))
  {
    WriteDigits(n, str, 0, UsedBase(base));
  }

  method Utoa(n: nat, str: array<char>, base: int)
    requires n < TWO32 && |ToText(n, UsedBase(base))| < str.Length
    modifies str
    ensures Holds(str, ToText(n, UsedBase(base)))
  {
    WriteDigits(n, str, 0, UsedBase(base));
  }

  /** The magnitude is taken in unsigned arithmetic, so the least number is converted too. */
  method Ltoa(n: Long, str: array<char>, base: int)
    requires |SignedText(n, base, TWO64)| < str.Length
    modifies str
    ensures Holds(str, SignedText(n, base, TWO64))
  {
    hide ToText, SignedText, UsedBase;
    UnsignedIs(n, TWO64);
    SignedParts(n, base, TWO64);
    var b := UsedBase(base);
    var head, uarg := 0, n as int % TWO64;
    if 10 == b && n < 0 {
      str[0] := '-';
      head := 1;
      uarg := (0 - uarg) % TWO64;
      assert uarg == 0 - n;
    } else {
      assert uarg == if n < 0 then n + TWO64 else n;
    }
    WriteDigits(uarg, str, head, b);
  }

  method Itoa(n: Int, str: array<char>, base: int)
    requires |SignedText(n, base, TWO32)| < str.Length
    modifies str
    ensures Holds(str, SignedText(n, base, TWO32))
  {
    hide ToText, SignedText, UsedBase;
    UnsignedIs(n, TWO32);
    SignedParts(n, base, TWO32);
    var b := UsedBase(base);
    var head, uarg := 0, n as int % TWO32;
    if 10 == b && n < 0 {
      str[0] := '-';
      head := 1;
      uarg := (0 - uarg) % TWO32;
      assert uarg == 0 - n;
    } else {
      assert uarg == if n < 0 then n + TWO32 else n;
    }
    WriteDigits(uarg, str, head, b);
  }

  // ---------------------------------------------------------------- printNumber

  /** What is written of a C string: everything before its first NUL. */
  function BeforeNul(s: string): string {
    if s == "" || s[0] == NUL then "" else [s[0]] + BeforeNul(s[1..])
  }

  lemma {:induction false} NothingToCut(s: string)
    requires NUL !in s
    ensures BeforeNul(s) == s
  {
    if s != "" {
      assert s[0] in s && s == [s[0]] + s[1..];
      NothingToCut(s[1..]);
    }
  }

  /** Digit 208 is the only one whose character is NUL. */
  lemma {:induction false} NoNulInText(n: nat, base: nat)
    requires 2 <= base <= 208
    ensures NUL !in ToText(n, base)
    decreases n
  {
    hide Quo, Rem;
    if n >= base {
      QuotientShrinks(n, base);
      NoNulInText(Quo(n, base), base);
    }
  }

  /** Printing writes the whole text, of every number, just when the base has no digit whose character is
      NUL; the number 208 is cut off in every larger base. */
  lemma TextIsWholeIff(base: nat)
    requires IsByteBase(base)
    ensures (forall u: nat :: u < TWO64 ==> BeforeNul(ToText(u, base)) == ToText(u, base)) <==> base <= 208
  {
    if base <= 208 {
      forall u: nat | u < TWO64 ensures BeforeNul(ToText(u, base)) == ToText(u, base) {
        NoNulInText(u, base);
        NothingToCut(ToText(u, base));
      }
    } else {
      assert ToText(208, base) == [NUL];
      assert BeforeNul([NUL]) == "";
    }
  }

  lemma {:induction false} DigitsHaveNoNul(s: string)
    requires AllDigits(s)
    ensures NUL !in s
  {
  }

  /** A long printed as if it were unsigned has the text that it has with a sign just when it is not
      negative. */
  lemma UnsignedTextIff(n: Long)
    ensures BeforeNul(ToText(n as int % TWO64, 10)) == SignedText(n, 10, TWO64) <==> n >= 0
  {
    var u := n as int % TWO64;
    UnsignedIs(n, TWO64);
    ToTextHasDigits(u);
    DigitsHaveNoNul(ToText(u, 10));
    NothingToCut(ToText(u, 10));
    hide ToText, BeforeNul;
    if n < 0 {
      assert ToText(u, 10)[0] != '-';
    }
  }

  /** The base used for the byte asked for. */
  function PrintBase(base: nat): (b: nat)
    requires base < 256
    ensures IsByteBase(b)
  {
    if base < 2 then 10 else base
  }

  /** The digits of u backwards into the buffer of printNumber; a number below 2^64 needs at most 64. */
  method FillForPrint(buf: array<char>, u: nat, b: nat) returns (str: nat)
    requires u < TWO64 && IsByteBase(b) && buf.Length == 65 && buf[64] == NUL
    modifies buf
    ensures str <= 64 && buf[64] == NUL && buf[str..64] == ToText(u, b)
  {
    AllToGo(u, b);
    hide ToText, DigitChar, Pow2, Quo, Rem, ToGo;
    str := 64;
    var n: nat := u;
    var more := true;
    Pow2Of64();
    assert buf[64..64] == "";
    while more
      invariant 0 <= str <= 64 && buf[64] == NUL && (!more ==> n == 0)
      invariant more ==> n < Pow2(str) && (str == 64 || n > 0)
      invariant ToGo(n, b, more) + buf[str..64] == ToText(u, b)
      decreases if more then n + 1 else 0
    {
      QuotientShrinks(n, b);
      QuotientFits(n, b, str);
      LastDigit(n, b, buf[str..64]);
      var c := Rem(n, b);
      n := Quo(n, b);
      str := str - 1;
      buf[str] := DigitChar(c);
      assert buf[str..64] == [DigitChar(c)] + buf[str + 1..64];
      more := n != 0;
    }
    NothingToGo(n, b, buf[str..64]);
  }

  /** Prints u in any base that fits a byte, 0 and 1 standing for 10. */
  method PrintNumber(u: nat, base: nat) returns (printed: string)
    requires u < TWO64 && base < 256
    ensures printed == BeforeNul(ToText(u, if base < 2 then 10 else base))
    ensures base <= 208 ==> printed == ToText(u, if base < 2 then 10 else base)
  {
    hide ToText, BeforeNul;
    var buf := new char[65];
    buf[64] := NUL;
    var b := if base < 2 then 10 else base;
    var str := FillForPrint(buf, u, b);
    printed := WriteCString(buf, str);
    if base <= 208 {
      NoNulInText(u, b);
      NothingToCut(ToText(u, b));
    }
  }

  /** write(const char*): the characters from a place on, up to the NUL. */
  method WriteCString(buf: array<char>, from: nat) returns (written: string)
    requires from < buf.Length && buf[buf.Length - 1] == NUL
    ensures written == BeforeNul(buf[from..buf.Length - 1])
  {
    written := "";
    var i := from;
    while buf[i] != NUL
      invariant from <= i < buf.Length
      invariant written + BeforeNul(buf[i..buf.Length - 1]) == BeforeNul(buf[from..buf.Length - 1])
      decreases buf.Length - i
    {
      var rest := buf[i..buf.Length - 1];
      assert rest[1..] == buf[i + 1..buf.Length - 1];
      Assoc(written, [buf[i]], BeforeNul(rest[1..]));
      written := written + [buf[i]];
      i := i + 1;
    }
    assert BeforeNul(buf[i..buf.Length - 1]) == "";
  }

  /** As DigitMoves, but 0 has a digit too. */
  lemma LastDigit(n: nat, base: nat, taken: string)
    requires IsByteBase(base)
    ensures Rem(n, base) < base
    ensures ToGo(n, base, true) + taken
            == ToGo(Quo(n, base), base, Quo(n, base) != 0) + ([DigitChar(Rem(n, base))] + taken)
  {
    if n == 0 {
      DivIs(0, base, 0, 0);
    } else {
      DigitMoves(n, base, taken);
    }
  }

  /** print(long, base): the text that ltoa makes, in the bases it knows. Base 0 writes one byte; a base
      that is 0 or 1 as a byte stands for base 10, but without a sign. */
  method PrintLong(n: Long, base: int) returns (printed: string)
    ensures base == 0 ==> printed == [(n as int % 256) as char]
    ensures 2 <= base <= 36 ==> printed == SignedText(n, base, TWO64)
    ensures base != 0 && base != 10 ==> printed == BeforeNul(ToText(n as int % TWO64, PrintBase(base % 256)))
    ensures base != 0 && base % 256 < 2 ==> (printed == SignedText(n, 10, TWO64) <==> n >= 0)
  {
    hide ToText, BeforeNul;
    UnsignedTextIff(n);
    if base == 0 {
      printed := [(n as int % 256) as char];
    } else if base == 10 {
      if n < 0 {
        var digits := PrintNumber((0 - n as int % TWO64) % TWO64, 10);
        printed := "-" + digits;
      } else {
        printed := PrintNumber(n, 10);
      }
    } else {
      printed := PrintNumber(n as int % TWO64, base % 256);
    }
  }

  // ---------------------------------------------------------------- reading digits

  /** Evaluates digits from the left, as the loop does. */
  function Accumulate(v: nat, s: string): nat
    decreases |s|
  {
    if s == "" then v else Accumulate(v * 10 + DigitValue(s[0]), s[1..])
  }

  lemma {:induction false} AccumulateIsValue(done: string, s: string)
    ensures Accumulate(Value(done, 10), s) == Value(done + s, 10)
    decreases |s|
  {
    if s == "" {
      assert done + s == done;
    } else {
      assert (done + [s[0]])[..|done|] == done;
      AccumulateIsValue(done + [s[0]], s[1..]);
      assert done + [s[0]] + s[1..] == done + s;
    }
  }

  lemma {:induction false} AccumulateGrows(v: nat, s: string)
    ensures Accumulate(v, s) >= v
    decreases |s|
  {
    if s != "" { AccumulateGrows(v * 10 + DigitValue(s[0]), s[1..]); }
  }

  ghost predicate AllDigits(s: string) {
    forall i :: 0 <= i < |s| ==> '0' <= s[i] <= '9'
  }

  lemma {:induction false} ToTextHasDigits(n: nat)
    ensures AllDigits(ToText(n, 10))
  {
    if n >= 10 { ToTextHasDigits(Quo(n, 10)); }
  }

  lemma PrintedDigits(n: nat)
    ensures AllDigits(ToText(n, 10)) && Accumulate(0, ToText(n, 10)) == n
  {
    ToTextIsNumeral(n, 10);
    ToTextHasDigits(n);
    AccumulateIsValue("", ToText(n, 10));
    assert "" + ToText(n, 10) == ToText(n, 10);
  }
}
