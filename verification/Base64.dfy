/** base64 encoding and decoding by a 32-bit shift register (RFC 4648, section 4). */
module Base64 {
  import opened Common

  type Digit = x: int | 0 <= x < 64

  // ---------------------------------------------------------------- the alphabet

  /** Character of a 6-bit value: A-Z, a-z, 0-9, '+' and '/' in this order. */
  function CharOf(d: Digit): char {
    if d < 26 then 'A' + d as char
    else if d < 52 then 'a' + (d - 26) as char
    else if d < 62 then '0' + (d - 52) as char
    else if d == 62 then '+'
    else '/'
  }

  /** std::string::find in the alphabet. */
  function DigitOf(c: char): Option<Digit> {
    if 'A' <= c <= 'Z' then Some(c as int - 'A' as int)
    else if 'a' <= c <= 'z' then Some(c as int - 'a' as int + 26)
    else if '0' <= c <= '9' then Some(c as int - '0' as int + 52)
    else if c == '+' then Some(62)
    else if c == '/' then Some(63)
    else None
  }

  lemma DigitOfChar(d: Digit)
    ensures DigitOf(CharOf(d)) == Some(d) && CharOf(d) != '='
  {
  }

  /** The alphabet as a table: digit d is written as its character d. */
  const ALPHABET: string := "ABCDEFGHIJKLMNOPQRSTUVWXYZ" + "abcdefghijklmnopqrstuvwxyz" + "0123456789+/"

  lemma CharIsTabled(d: Digit)
    ensures |ALPHABET| == 64 && CharOf(d) == ALPHABET[d]
  {
  }

  function Tabled(d: Digit): char {
    CharIsTabled(d);
    ALPHABET[d]
  }

  /** A character stands for the digit at whose place the table has it. */
  lemma DigitIsTabled(c: char, d: Digit)
    ensures |ALPHABET| == 64 && (DigitOf(c) == Some(d) <==> ALPHABET[d] == c)
  {
    CharIsTabled(d);
  }

  // ---------------------------------------------------------------- RFC 4648 section 4

  /** The 6 bits number `place` of a 24-bit group. */
  function Sextet(place: nat, bits: nat): Digit {
    if place == 0 then bits / 0x40000 % 64
    else if place == 1 then bits / 0x1000 % 64
    else if place == 2 then bits / 0x40 % 64
    else bits % 64
  }

  function Group(a: Byte, b: Byte, c: Byte): (n: nat)
    ensures n < 0x1000000
  {
    a * 0x10000 + b * 0x100 + c
  }

  /** The first k of the four characters of a 24-bit group. */
  function Chars(n: nat, k: nat): (s: string)
    ensures |s| == k
  {
    if k == 0 then "" else Chars(n, k - 1) + [CharOf(Sextet(k - 1, n))]
  }

  /** Groups of three bytes become four characters; a last group of two or one is filled up with zero
      bits and padded. */
  function Encode(x: seq<Byte>): string {
    if |x| == 0 then ""
    else if |x| == 1 then Chars(Group(x[0], 0, 0), 2) + "=="
    else if |x| == 2 then Chars(Group(x[0], x[1], 0), 3) + "="
    else Chars(Group(x[0], x[1], x[2]), 4) + Encode(x[3..])
  }

  lemma {:induction false} EncodedLength(x: seq<Byte>)
    ensures |Encode(x)| == 4 * ((|x| + 2) / 3)
  {
    hide Chars;
    if |x| >= 3 {
      EncodedLength(x[3..]);
      var q := (|x| - 1) / 3;
      DivIs(|x| + 2, 3, q + 1, (|x| - 1) % 3);
    }
  }

  function ByteAt(x: seq<Byte>, k: nat): Byte {
    if k < |x| then x[k] else 0
  }

  /** The 6-bit numbers of three bytes. */
  function SixBits(a: Byte, b: Byte, c: Byte, p: nat): (d: Digit) {
    match p
    case 0 => a / 4
    case 1 => a % 4 * 16 + b / 16
    case 2 => b % 16 * 4 + c / 64
    case _ => c % 64
  }

  /** Character i of an encoding: from the table, at the 6-bit number of the three bytes it belongs to; '='
      where there are no bits of the text left. */
  function Written(x: seq<Byte>, i: nat): char {
    var k := i / 4 * 3;
    if i % 4 > |x| - k then '='
    else Tabled(SixBits(ByteAt(x, k), ByteAt(x, k + 1), ByteAt(x, k + 2), i % 4))
  }

  // ---------------------------------------------------------------- bits of a group

  /** The digits and the bytes of a group. */
  lemma GroupParts(a: Byte, b: Byte, c: Byte)
    ensures var n: int := Group(a, b, c);
            && Sextet(0, n) == a / 4 && Sextet(1, n) == a % 4 * 16 + b / 16
            && Sextet(2, n) == b % 16 * 4 + c / 64 && Sextet(3, n) == c % 64
            && n / 0x10000 == a && n / 0x100 % 256 == b && n % 256 == c
  {
    var n: int := Group(a, b, c);
    var a1: int, a0: int, b1: int, b0: int, c1: int, c0: int := a / 4, a % 4, b / 16, b % 16, c / 64, c % 64;
    DivIs(n, 0x40000, a1, a0 * 0x10000 + b * 0x100 + c);
    DivIs(n, 0x1000, a * 16 + b1, b0 * 0x100 + c);
    DivIs(a * 16 + b1, 64, a1, a0 * 16 + b1);
    DivIs(n, 0x40, a * 1024 + b * 4 + c1, c0);
    DivIs(a * 1024 + b * 4 + c1, 64, a * 16 + b1, b0 * 4 + c1);
    DivIs(n, 64, a * 1024 + b * 4 + c1, c0);
    DivIs(n, 0x10000, a, b * 0x100 + c);
    DivIs(n, 0x100, a * 0x100 + b, c);
    DivIs(a * 0x100 + b, 0x100, a, b);
  }

  lemma TabledIs(d: Digit)
    ensures Tabled(d) == CharOf(d)
  {
    CharIsTabled(d);
  }

  /** The characters of a group, by the table. */
  lemma CharsAre(a: Byte, b: Byte, c: Byte, k: nat, p: nat)
    requires p < k <= 4
    ensures Chars(Group(a, b, c), k)[p] == Tabled(SixBits(a, b, c, p))
  {
    GroupParts(a, b, c);
    TabledIs(SixBits(a, b, c, p));
    hide Group, CharOf, Sextet, Tabled;
    CharsAt(Group(a, b, c), k, p);
  }

  lemma {:induction false} CharsAt(n: nat, k: nat, p: nat)
    requires p < k
    ensures Chars(n, k)[p] == CharOf(Sextet(p, n))
  {
    hide CharOf, Sextet;
    if p < k - 1 { CharsAt(n, k - 1, p); }
  }

  /** The characters of a first group. */
  lemma FirstCharacter(x: seq<Byte>, i: nat)
    requires x != [] && i < 4
    ensures |Encode(x)| >= 4 && Encode(x)[i] == Written(x, i)
  {
    hide Chars, Group, SixBits, Tabled;
    if i <= |x| {
      CharsAre(ByteAt(x, 0), ByteAt(x, 1), ByteAt(x, 2), if |x| < 3 then |x| + 1 else 4, i);
    }
  }

  lemma WrittenBehind(x: seq<Byte>, i: nat)
    requires |x| >= 3 && i >= 4
    ensures Written(x, i) == Written(x[3..], i - 4)
  {
    hide SixBits, Tabled;
    DivIs(i, 4, (i - 4) / 4 + 1, (i - 4) % 4);
    var k := (i - 4) / 4 * 3;
    BytesBehind(x, k);
    BytesBehind(x, k + 1);
    BytesBehind(x, k + 2);
  }

  lemma BytesBehind(x: seq<Byte>, k: nat)
    requires |x| >= 3
    ensures ByteAt(x, k + 3) == ByteAt(x[3..], k)
  {
  }

  /** Every character of an encoding is the one that the table has for its bits. */
  lemma {:induction false} EncodedCharacter(x: seq<Byte>, i: nat)
    requires i < |Encode(x)|
    ensures Encode(x)[i] == Written(x, i)
    decreases |x|
  {
    EncodedLength(x);
    hide Written, Encode;
    if |x| >= 3 && i >= 4 {
      EncodeFirstGroup(x);
      WrittenBehind(x, i);
      EncodedCharacter(x[3..], i - 4);
    } else {
      FirstCharacter(x, i);
    }
  }

  /** Characters already written do not depend on bytes still to come. */
  lemma CharsKeep(a: Byte, b: Byte, c: Byte)
    ensures Chars(Group(a, 0, 0), 1) == Chars(Group(a, b, 0), 1) == Chars(Group(a, b, c), 1)
    ensures Chars(Group(a, b, 0), 2) == Chars(Group(a, b, c), 2)
  {
    GroupParts(a, 0, 0);
    GroupParts(a, b, 0);
    GroupParts(a, b, c);
    hide Sextet, Group;
    var n, m := Group(a, b, 0), Group(a, b, c);
    assert Chars(n, 1) == [CharOf(Sextet(0, n))] && Chars(m, 1) == [CharOf(Sextet(0, m))];
  }

  // ---------------------------------------------------------------- encoding

  /** The register when r bytes of the group at g have been shifted in. */
  function Register(x: seq<Byte>, g: nat, r: nat): (n: nat)
    requires g + r <= |x|
    ensures n < 0x1000000
  {
    if r == 0 then 0 else Group(x[g], if r >= 2 then x[g + 1] else 0, if r >= 3 then x[g + 2] else 0)
  }

  /** v << offset, for the offsets that occur. */
  function ShiftLeft(v: Byte, offset: int): nat {
    var w: int := v;
    if offset == 18 then w * 0x40000
    else if offset == 16 then w * 0x10000
    else if offset == 12 then w * 0x1000
    else if offset == 8 then w * 0x100
    else if offset == 6 then w * 0x40
    else w
  }

  /** Shifting in one more byte leaves the characters already written as they are. */
  lemma ShiftIn(x: seq<Byte>, g: nat, r: nat)
    requires r < 3 && g + r < |x|
    ensures Register(x, g, r + 1) == Register(x, g, r) + ShiftLeft(x[g + r], 16 - r * 8)
    ensures Chars(Register(x, g, r), r) == Chars(Register(x, g, r + 1), r)
  {
    hide Chars;
    NothingYet(x);
    if r >= 1 {
      CharsKeep(x[g], x[g + 1], if r == 2 then x[g + 2] else 0);
    }
  }

  /** A complete group at g. */
  lemma GroupDone(x: seq<Byte>, g: nat)
    requires g + 3 <= |x|
    ensures Encode(x[g..]) == Chars(Register(x, g, 3), 4) + Encode(x[g + 3..])
  {
    assert x[g..][3..] == x[g + 3..];
  }

  /** An incomplete last group at g. */
  lemma LastGroup(x: seq<Byte>, g: nat)
    requires g <= |x| < g + 3
    ensures Encode(x[g..]) == match |x| - g
                              case 0 => ""
                              case 1 => Chars(Register(x, g, 1), 2) + "=="
                              case _ => Chars(Register(x, g, 2), 3) + "="
  {
  }

  lemma CharsSnoc(n: nat, k: nat)
    ensures Chars(n, k + 1) == Chars(n, k) + [CharOf(Sextet(k, n))]
  {
  }

  /** What is still to be written of the group begun when the bytes run out. */
  function LastCharacters(left: nat, bits: nat): string {
    if left == 1 then [CharOf(Sextet(1, bits))] + "=="
    else if left == 2 then [CharOf(Sextet(2, bits))] + "="
    else ""
  }

  lemma LastCharactersComplete(x: seq<Byte>, g: nat, done: string)
    requires g <= |x| < g + 3
    ensures var bits := Register(x, g, |x| - g);
            done + Encode(x[g..]) == done + Chars(bits, |x| - g) + LastCharacters(|x| - g, bits)
  {
    var bits := Register(x, g, |x| - g);
    LastGroup(x, g);
    CharsSnoc(bits, 1);
    CharsSnoc(bits, 2);
    NothingYet(x);
    hide Chars, Encode, CharOf, Sextet, Register;
    if |x| - g == 1 {
      Assoc(Chars(bits, 1), [CharOf(Sextet(1, bits))], "==");
    } else if |x| - g == 2 {
      Assoc(Chars(bits, 2), [CharOf(Sextet(2, bits))], "=");
    }
    Assoc(done, Chars(bits, |x| - g), LastCharacters(|x| - g, bits));
  }

  /** The loop of to_base64: whole groups and the characters of the one begun; the register never
      exceeds 24 bits. */
  method EncodeBytes(data: seq<Byte>) returns (encoded: string, bitStream: nat, offset: int)
    ensures Encode(data) == encoded + LastCharacters(|data| % 3, bitStream) && bitStream < 0x1000000
    ensures offset == if |data| % 3 == 0 then 0 else 24 - |data| % 3 * 8
  {
    hide Encode, Chars, Sextet, CharOf, Register, LastCharacters;
    var counter := 0;
    bitStream := 0;
    encoded := "";
    offset := 0;
    ghost var g: nat, done := 0, "";
    NothingYet(data);
    while counter < |data|
      invariant 0 <= counter <= |data| && g == counter - counter % 3
      invariant Encode(data) == done + Encode(data[g..])
      invariant bitStream == Register(data, g, counter % 3) < 0x1000000
      invariant encoded == done + Chars(bitStream, counter % 3)
      invariant offset == if counter % 3 == 0 then 0 else 24 - counter % 3 * 8
    {
      ghost var r := counter % 3;
      ShiftIn(data, g, r);
      offset := 16 - counter % 3 * 8;
      bitStream := (bitStream + ShiftLeft(data[counter], offset)) % 0x100000000;
      assert bitStream == Register(data, g, r + 1);
      CharsSnoc(bitStream, r);
      if offset == 16 {
        encoded := encoded + [CharOf(Sextet(0, bitStream))];
      }
      if offset == 8 {
        encoded := encoded + [CharOf(Sextet(1, bitStream))];
      }
      if offset == 0 && counter != 3 {
        CharsSnoc(bitStream, 3);
        encoded := encoded + [CharOf(Sextet(2, bitStream))];
        encoded := encoded + [CharOf(Sextet(3, bitStream))];
        GroupDone(data, g);
        g, done := counter + 1, encoded;
        bitStream := 0;
        NothingYet(data);
      }
      counter := counter + 1;
    }
    LastCharactersComplete(data, g, done);
  }

  /** to_base64: its result is the definition by groups, and each character the one of the table. */
  method ToBase64(data: seq<Byte>) returns (encoded: string)
    ensures encoded == Encode(data) && |encoded| == 4 * ((|data| + 2) / 3)
    ensures forall i :: 0 <= i < |encoded| ==> encoded[i] == Written(data, i)
  {
    hide Encode, Sextet, CharOf, Written;
    EncodedLength(data);
    forall i | 0 <= i < |Encode(data)| ensures Encode(data)[i] == Written(data, i) {
      EncodedCharacter(data, i);
    }
    var bitStream, offset;
    encoded, bitStream, offset := EncodeBytes(data);
    if offset == 16 {
      Assoc(encoded, [CharOf(Sextet(1, bitStream))], "==");
      encoded := encoded + [CharOf(Sextet(1, bitStream))];
      encoded := encoded + "==";
    }
    if offset == 8 {
      Assoc(encoded, [CharOf(Sextet(2, bitStream))], "=");
      encoded := encoded + [CharOf(Sextet(2, bitStream))];
      encoded := encoded + "=";
    }
  }

  lemma NothingYet(x: seq<Byte>)
    ensures x[0..] == x && forall n: nat :: Chars(n, 0) == ""
    ensures forall g: nat :: g <= |x| ==> Register(x, g, 0) == 0
  {
  }

  // ---------------------------------------------------------------- decoding

  /** What is appended when the digit at this place of a group has been shifted in. */
  function Emitted(place: nat, bits: nat): seq<Byte> {
    if place == 1 then [bits / 0x10000 % 256]
    else if place == 2 then [bits / 0x100 % 256]
    else if place == 3 then [bits % 256]
    else []
  }

  function Shifted(bits: nat, place: nat, d: Digit): (r: nat)
    ensures r < 0x100000000
  {
    (bits + ShiftLeft(d, 18 - place * 6)) % 0x100000000
  }

  /** What the rest s of a text decodes to when `counter` characters have been read and the register
      holds `bits`; None if a foreign character is met. */
  function DecodeFrom(s: string, counter: nat, bits: nat): Option<seq<Byte>> {
    if s == "" then Some([])
    else
      var d, place := DigitOf(s[0]), counter % 4;
      if d == None then
        if s[0] == '=' then DecodeFrom(s[1..], counter + 1, bits) else None
      else
        var bits' := Shifted(bits, place, d.value);
        Prepend(Emitted(place, bits'), DecodeFrom(s[1..], counter + 1, if place == 3 then 0 else bits'))
  }

  function Prepend(xs: seq<Byte>, r: Option<seq<Byte>>): Option<seq<Byte>> {
    if r == None then None else Some(xs + r.value)
  }

  function Decode(s: string): seq<Byte> {
    var r := DecodeFrom(s, 0, 0);
    if r == None then [] else r.value
  }

  /** If the text spells whole groups of digits of the table, these are the bytes that they make. */
  ghost predicate BytesByTable(data: string, decoded: seq<Byte>) {
    forall v :: |v| % 4 == 0 && data == Spelled(v) ==> decoded == Octets(v)
  }

  lemma DecodesByTable(data: string)
    ensures BytesByTable(data, Decode(data))
  {
    forall v | |v| % 4 == 0 && data == Spelled(v) ensures Decode(data) == Octets(v) {
      DecodedBytes(v, 0);
    }
  }

  /** What has been decoded, completed by what the rest of the text gives. */
  function Completed(decoded: seq<Byte>, s: string, counter: nat, bits: nat): seq<Byte> {
    var r := DecodeFrom(s, counter, bits);
    if r == None then [] else decoded + r.value
  }

  /** One character read. */
  lemma OneMoreCharacter(decoded: seq<Byte>, data: string, counter: nat, bits: nat)
    requires counter < |data|
    ensures var d, place, rest := DigitOf(data[counter]), counter % 4, data[counter + 1..];
            Completed(decoded, data[counter..], counter, bits)
            == if d.Some? then
                 var bits' := Shifted(bits, place, d.value);
                 Completed(decoded + Emitted(place, bits'), rest, counter + 1, if place == 3 then 0 else bits')
               else if data[counter] == '=' then Completed(decoded, rest, counter + 1, bits)
               else []
  {
    var d, place, rest := DigitOf(data[counter]), counter % 4, data[counter + 1..];
    assert data[counter..][1..] == rest;
    if d.Some? {
      var bits' := Shifted(bits, place, d.value);
      var r := DecodeFrom(rest, counter + 1, if place == 3 then 0 else bits');
      hide DigitOf, Shifted, Emitted;
      if r.Some? { Assoc(decoded, Emitted(place, bits'), r.value); }
    }
  }

  lemma CompletedAtEnds(data: string)
    ensures Completed([], data[0..], 0, 0) == Decode(data)
    ensures forall decoded, bits: nat :: Completed(decoded, data[|data|..], |data|, bits) == decoded
  {
    assert data[0..] == data && data[|data|..] == "";
    assert forall x: seq<Byte> :: [] + x == x && x + [] == x;
  }

  /** from_base64. */
  method FromBase64(data: string) returns (decoded: seq<Byte>)
    ensures decoded == Decode(data) && BytesByTable(data, decoded)
  {
    hide BytesByTable, DigitOf, Shifted, Emitted, Completed, Decode;
    DecodesByTable(data);
    CompletedAtEnds(data);
    var counter := 0;
    var bitStream: nat := 0;
    decoded := [];
    while counter < |data|
      invariant 0 <= counter <= |data| && bitStream < 0x100000000
      invariant Completed(decoded, data[counter..], counter, bitStream) == Decode(data)
    {
      OneMoreCharacter(decoded, data, counter, bitStream);
      var numVal := DigitOf(data[counter]);
      if numVal.Some? {
        var place := counter % 4;
        bitStream := Shifted(bitStream, place, numVal.value);
        decoded := decoded + Emitted(place, bitStream);
        if place == 3 && counter != 4 {
          bitStream := 0;
        }
      } else if data[counter] != '=' {
        return [];
      }
      counter := counter + 1;
    }
  }

  /** Decoding rejects just the texts that hold a character outside the alphabet and '='. */
  lemma {:induction false} RejectsForeignCharactersIff(s: string, counter: nat, bits: nat)
    ensures DecodeFrom(s, counter, bits) == None <==> exists i :: 0 <= i < |s| && DigitOf(s[i]) == None && s[i] != '='
  {
    if s != "" {
      var d, place := DigitOf(s[0]), counter % 4;
      var next := if d == None then bits else if place == 3 then 0 else Shifted(bits, place, d.value);
      RejectsForeignCharactersIff(s[1..], counter + 1, next);
      assert forall i :: 0 < i < |s| ==> s[i] == s[1..][i - 1];
      if DecodeFrom(s[1..], counter + 1, next) == None {
        var i :| 0 <= i < |s[1..]| && DigitOf(s[1..][i]) == None && s[1..][i] != '=';
        assert s[i + 1] == s[1..][i];
      }
    }
  }

  // ---------------------------------------------------------------- round trip

  lemma DecodeDigit(d: Digit, s: string, counter: nat, bits: nat)
    ensures var place := counter % 4;
            var bits' := Shifted(bits, place, d);
            DecodeFrom([CharOf(d)] + s, counter, bits)
            == Prepend(Emitted(place, bits'), DecodeFrom(s, counter + 1, if place == 3 then 0 else bits'))
  {
    DigitOfChar(d);
    assert ([CharOf(d)] + s)[1..] == s;
  }

  /** The register when the first k digits of a group have been shifted in. */
  function Digits(n: nat, k: nat): nat {
    if k == 0 then 0 else Digits(n, k - 1) + ShiftLeft(Sextet(k - 1, n), 18 - (k - 1) * 6)
  }

  lemma DigitsAre(a: Byte, b: Byte, c: Byte)
    ensures var n := Group(a, b, c);
            && Digits(n, 1) == (a as int) / 4 * 0x40000
            && Digits(n, 2) == (a as int) * 0x10000 + (b as int) / 16 * 0x1000
            && Digits(n, 3) == (a as int) * 0x10000 + (b as int) * 0x100 + (c as int) / 64 * 0x40
            && Digits(n, 4) == n
  {
    GroupParts(a, b, c);
    hide Sextet;
    var n := Group(a, b, c);
    assert Digits(n, 1) == (a as int) / 4 * 0x40000;
    assert Digits(n, 2) == Digits(n, 1) + ShiftLeft(Sextet(1, n), 12);
    assert Digits(n, 3) == Digits(n, 2) + ShiftLeft(Sextet(2, n), 6);
  }

  /** The bytes taken from the register on the way. */
  lemma DigitsToBytes(a: Byte, b: Byte, c: Byte)
    ensures var n := Group(a, b, c);
            && Emitted(1, Digits(n, 2)) == [a] && Emitted(2, Digits(n, 3)) == [b] && Emitted(3, Digits(n, 4)) == [c]
            && Digits(n, 1) <= Digits(n, 2) <= Digits(n, 3) <= Digits(n, 4) == n
  {
    DigitsAre(a, b, c);
    GroupParts(a, b, c);
    hide Digits, Sextet;
    var b1: int, c1: int := b / 16, c / 64;
    DivIs((a as int) * 0x10000 + b1 * 0x1000, 0x10000, a, b1 * 0x1000);
    DivIs((a as int) * 0x10000 + (b as int) * 0x100 + c1 * 0x40, 0x100, (a as int) * 0x100 + b, c1 * 0x40);
    DivIs((a as int) * 0x100 + b, 0x100, a, b);
  }

  /** The next digit of a group n, read when the ones before it have been added to what was left in the
      register. */
  lemma DecodeNext(n: nat, s: string, counter: nat, k: nat, left: nat)
    requires k < 4 && counter % 4 == k && left + Digits(n, k + 1) < 0x100000000
    ensures DecodeFrom([CharOf(Sextet(k, n))] + s, counter, left + Digits(n, k))
            == Prepend(Emitted(k, left + Digits(n, k + 1)),
                       DecodeFrom(s, counter + 1, if k == 3 then 0 else left + Digits(n, k + 1)))
  {
    ShiftedDigit(n, k, left);
    hide CharOf, Sextet, DecodeFrom, Shifted, Digits;
    DecodeDigit(Sextet(k, n), s, counter, left + Digits(n, k));
  }

  lemma ShiftedDigit(n: nat, k: nat, left: nat)
    requires k < 4 && left + Digits(n, k + 1) < 0x100000000
    ensures Shifted(left + Digits(n, k), k, Sextet(k, n)) == left + Digits(n, k + 1)
  {
    hide Sextet, ShiftLeft;
    DivIs(left + Digits(n, k + 1), 0x100000000, 0, left + Digits(n, k + 1));
  }

  lemma Places(counter: nat)
    requires counter % 4 == 0
    ensures (counter + 1) % 4 == 1 && (counter + 2) % 4 == 2 && (counter + 3) % 4 == 3 && (counter + 4) % 4 == 0
  {
  }

  /** The digits of the group of a, b and c, read on top of what was left: two of them give the first
      byte, the third gives the second, the fourth the third. */
  lemma DecodeGroup(a: Byte, b: Byte, c: Byte, s: string, counter: nat, left: nat)
    requires counter % 4 == 0 && left < 0x1000000
    ensures var n := Group(a, b, c);
            && DecodeFrom(Chars(n, 2) + s, counter, left)
               == Prepend(Emitted(1, left + Digits(n, 2)), DecodeFrom(s, counter + 2, left + Digits(n, 2)))
            && DecodeFrom([CharOf(Sextet(2, n))] + s, counter + 2, left + Digits(n, 2))
               == Prepend(Emitted(2, left + Digits(n, 3)), DecodeFrom(s, counter + 3, left + Digits(n, 3)))
            && DecodeFrom([CharOf(Sextet(3, n))] + s, counter + 3, left + Digits(n, 3))
               == Prepend(Emitted(3, left + n), DecodeFrom(s, counter + 4, 0))
  {
    hide *;
    var n := Group(a, b, c);
    DigitsInOrder(a, b, c);
    FirstTwo(n, s);
    NothingEmitted(left + Digits(n, 1));
    Places(counter);
    DecodeNext(n, [CharOf(Sextet(1, n))] + s, counter, 0, left);
    DecodeNext(n, s, counter + 1, 1, left);
    DecodeNext(n, s, counter + 2, 2, left);
    DecodeNext(n, s, counter + 3, 3, left);
    PrependNothing(DecodeFrom([CharOf(Sextet(1, n))] + s, counter + 1, left + Digits(n, 1)));
  }

  lemma DigitsInOrder(a: Byte, b: Byte, c: Byte)
    ensures var n := Group(a, b, c);
            0 == Digits(n, 0) <= Digits(n, 1) <= Digits(n, 2) <= Digits(n, 3) <= Digits(n, 4) == n
  {
    assert Digits(Group(a, b, c), 0) == 0;
    hide *;
    DigitsToBytes(a, b, c);
  }

  lemma NothingEmitted(bits: nat)
    ensures Emitted(0, bits) == []
  {
  }

  lemma PrependNothing(r: Option<seq<Byte>>)
    ensures Prepend([], r) == r
  {
    if r.Some? {
      assert [] + r.value == r.value;
    }
  }

  lemma PrependTwice(x: seq<Byte>, y: seq<Byte>, r: Option<seq<Byte>>)
    ensures Prepend(x, Prepend(y, r)) == Prepend(x + y, r)
  {
    if r.Some? {
      Assoc(x, y, r.value);
    }
  }

  lemma FirstTwo(n: nat, s: string)
    ensures Chars(n, 2) + s == [CharOf(Sextet(0, n))] + ([CharOf(Sextet(1, n))] + s)
  {
    hide CharOf, Sextet;
    assert Chars(n, 1) == [CharOf(Sextet(0, n))];
  }

  /** The bytes that the first k digits of a group give on top of what was left. */
  function Given(n: nat, k: nat, left: nat): seq<Byte> {
    if k <= 1 then [] else Given(n, k - 1, left) + Emitted(k - 1, left + Digits(n, k))
  }

  /** Three digits of a group, and four. */
  lemma DecodeThree(a: Byte, b: Byte, c: Byte, s: string, counter: nat, left: nat)
    requires counter % 4 == 0 && left < 0x1000000
    ensures var n := Group(a, b, c);
            DecodeFrom(Chars(n, 3) + s, counter, left)
            == Prepend(Given(n, 3, left), DecodeFrom(s, counter + 3, left + Digits(n, 3)))
  {
    hide *;
    var n := Group(a, b, c);
    GivenSteps(n, left);
    DigitsSplit(n, s);
    DecodeGroup(a, b, c, [CharOf(Sextet(2, n))] + s, counter, left);
    DecodeGroup(a, b, c, s, counter, left);
    PrependTwice(Given(n, 2, left), Emitted(2, left + Digits(n, 3)), DecodeFrom(s, counter + 3, left + Digits(n, 3)));
  }

  lemma DecodeFour(a: Byte, b: Byte, c: Byte, s: string, counter: nat, left: nat)
    requires counter % 4 == 0 && left < 0x1000000
    ensures var n := Group(a, b, c);
            DecodeFrom(Chars(n, 4) + s, counter, left) == Prepend(Given(n, 4, left), DecodeFrom(s, counter + 4, 0))
  {
    hide *;
    var n := Group(a, b, c);
    GivenSteps(n, left);
    DigitsInOrder(a, b, c);
    DigitsSplit(n, s);
    DecodeThree(a, b, c, [CharOf(Sextet(3, n))] + s, counter, left);
    DecodeGroup(a, b, c, s, counter, left);
    PrependTwice(Given(n, 3, left), Emitted(3, left + n), DecodeFrom(s, counter + 4, 0));
  }

  lemma DecodeTwo(a: Byte, s: string, counter: nat, left: nat)
    requires counter % 4 == 0 && left < 0x1000000
    ensures var n := Group(a, 0, 0);
            DecodeFrom(Chars(n, 2) + s, counter, left)
            == Prepend(Given(n, 2, left), DecodeFrom(s, counter + 2, left + Digits(n, 2)))
  {
    hide *;
    GivenSteps(Group(a, 0, 0), left);
    DecodeGroup(a, 0, 0, s, counter, left);
  }

  lemma GivenSteps(n: nat, left: nat)
    ensures Given(n, 2, left) == Emitted(1, left + Digits(n, 2))
    ensures Given(n, 3, left) == Given(n, 2, left) + Emitted(2, left + Digits(n, 3))
    ensures Given(n, 4, left) == Given(n, 3, left) + Emitted(3, left + Digits(n, 4))
  {
    hide Digits, Emitted;
    assert Given(n, 1, left) == [];
  }

  lemma DigitsSplit(n: nat, s: string)
    ensures Chars(n, 3) + s == Chars(n, 2) + ([CharOf(Sextet(2, n))] + s)
    ensures Chars(n, 4) + s == Chars(n, 3) + ([CharOf(Sextet(3, n))] + s)
  {
    CharsSnoc(n, 2);
    CharsSnoc(n, 3);
    hide Chars, CharOf, Sextet;
    Assoc(Chars(n, 2), [CharOf(Sextet(2, n))], s);
    Assoc(Chars(n, 3), [CharOf(Sextet(3, n))], s);
  }

  /** On an empty register they give the bytes of the group. */
  lemma GivenOnEmpty(a: Byte, b: Byte, c: Byte)
    ensures var n := Group(a, b, c);
            Given(n, 2, 0) == [a] && Given(n, 3, 0) == [a, b] && Given(n, 4, 0) == [a, b, c]
  {
    var n := Group(a, b, c);
    GivenSteps(n, 0);
    DigitsToBytes(a, b, c);
    hide Given, Digits, Emitted, Group;
  }

  /** What the last group of x leaves in the register. */
  function Left(x: seq<Byte>): (n: nat)
    ensures n < 0x1000000
  {
    var k := |x|;
    if k % 3 == 0 then 0
    else if k % 3 == 1 then x[k - 1] as int * 0x10000
    else x[k - 2] as int * 0x10000 + x[k - 1] as int * 0x100
  }

  lemma LeftByGroup(a: Byte, b: Byte, x: seq<Byte>)
    ensures Left([]) == 0
    ensures Left([a]) == Digits(Group(a, 0, 0), 2) && Left([a, b]) == Digits(Group(a, b, 0), 3)
    ensures |x| >= 3 ==> Left(x) == Left(x[3..])
  {
    DigitsAre(a, 0, 0);
    DigitsAre(a, b, 0);
    hide Digits, Group;
    if |x| >= 3 {
      assert (|x| - 3) % 3 == |x| % 3;
    }
  }

  lemma SkipPadding(s: string, counter: nat, bits: nat)
    ensures DecodeFrom("=" + s, counter, bits) == DecodeFrom(s, counter + 1, bits)
    ensures DecodeFrom("==" + s, counter, bits) == DecodeFrom(s, counter + 2, bits)
  {
    assert ("==" + s)[1..] == "=" + s && ("=" + s)[1..] == s;
    assert DecodeFrom("=" + s, counter + 1, bits) == DecodeFrom(s, counter + 2, bits);
  }

  /** An encoding in front of a text decodes to its bytes, whatever follows, and leaves its last group
      in the register. */
  lemma {:induction false} DecodeEncoding(x: seq<Byte>, s: string, counter: nat)
    requires counter % 4 == 0
    ensures DecodeFrom(Encode(x) + s, counter, 0) == Prepend(x, DecodeFrom(s, counter + |Encode(x)|, Left(x)))
  {
    hide DecodeFrom, Chars, Group, Prepend, Left;
    if |x| == 0 {
      assert Encode(x) + s == s;
      LeftByGroup(0, 0, x);
      PrependNothing(DecodeFrom(s, counter, 0));
    } else if |x| == 1 {
      assert x == [x[0]];
      DecodePaddedOne(x[0], s, counter);
    } else if |x| == 2 {
      assert x == [x[0], x[1]];
      DecodePaddedTwo(x[0], x[1], s, counter);
    } else {
      hide *;
      Places(counter);
      EncodeFirstGroup(x);
      LeftByGroup(0, 0, x);
      var rest := Encode(x[3..]);
      Assoc(Chars(Group(x[0], x[1], x[2]), 4), rest, s);
      DecodeEncoding(x[3..], s, counter + 4);
      DecodeOneMoreGroup(x[0], x[1], x[2], rest + s, x[3..], DecodeFrom(s, counter + 4 + |rest|, Left(x)), counter);
    }
  }

  lemma EncodeFirstGroup(x: seq<Byte>)
    requires |x| >= 3
    ensures Encode(x) == Chars(Group(x[0], x[1], x[2]), 4) + Encode(x[3..]) && |Encode(x)| == 4 + |Encode(x[3..])|
    ensures x == [x[0], x[1], x[2]] + x[3..]
  {
    hide Chars, Group;
  }

  lemma DecodeOneMoreGroup(a: Byte, b: Byte, c: Byte, rest: string, y: seq<Byte>, r: Option<seq<Byte>>, counter: nat)
    requires counter % 4 == 0 && DecodeFrom(rest, counter + 4, 0) == Prepend(y, r)
    ensures DecodeFrom(Chars(Group(a, b, c), 4) + rest, counter, 0) == Prepend([a, b, c] + y, r)
  {
    hide *;
    DecodeFour(a, b, c, rest, counter, 0);
    GivenOnEmpty(a, b, c);
    PrependTwice([a, b, c], y, r);
  }

  lemma EncodeLastGroup(a: Byte, b: Byte)
    ensures Encode([a]) == Chars(Group(a, 0, 0), 2) + "==" && |Encode([a])| == 4
    ensures Encode([a, b]) == Chars(Group(a, b, 0), 3) + "=" && |Encode([a, b])| == 4
  {
    hide Chars;
  }

  /** The last group when it is one byte, or two. */
  lemma DecodePaddedOne(a: Byte, s: string, counter: nat)
    requires counter % 4 == 0
    ensures DecodeFrom(Encode([a]) + s, counter, 0)
            == Prepend([a], DecodeFrom(s, counter + |Encode([a])|, Left([a])))
  {
    hide *;
    var n := Group(a, 0, 0);
    EncodeLastGroup(a, 0);
    LeftByGroup(a, 0, []);
    GivenOnEmpty(a, 0, 0);
    Assoc(Chars(n, 2), "==", s);
    DecodeTwo(a, "==" + s, counter, 0);
    SkipPadding(s, counter + 2, Left([a]));
  }

  lemma DecodePaddedTwo(a: Byte, b: Byte, s: string, counter: nat)
    requires counter % 4 == 0
    ensures DecodeFrom(Encode([a, b]) + s, counter, 0)
            == Prepend([a, b], DecodeFrom(s, counter + |Encode([a, b])|, Left([a, b])))
  {
    hide *;
    var n := Group(a, b, 0);
    EncodeLastGroup(a, b);
    LeftByGroup(a, b, []);
    GivenOnEmpty(a, b, 0);
    Assoc(Chars(n, 3), "=", s);
    DecodeThree(a, b, 0, "=" + s, counter, 0);
    SkipPadding(s, counter + 3, Left([a, b]));
  }

  /** Decoding undoes encoding. */
  lemma RoundTrip(x: seq<Byte>)
    ensures Decode(Encode(x)) == x
  {
    DecodeEncoding(x, "", 0);
    assert Encode(x) + "" == Encode(x) && x + [] == x;
  }

  /** The text that spells these digits by the table. */
  function Spelled(v: seq<Digit>): (s: string)
    ensures |s| == |v|
  {
    seq(|v|, i requires 0 <= i < |v| => Tabled(v[i]))
  }

  /** Byte number q of the three that four 6-bit numbers make. */
  function Octet(d0: int, d1: int, d2: int, d3: int, q: nat): int {
    match q
    case 0 => d0 * 4 + d1 / 16
    case 1 => d1 % 16 * 16 + d2 / 4
    case _ => d2 % 4 * 64 + d3
  }

  /** The bytes of whole groups of digits. */
  function Octets(v: seq<Digit>): (x: seq<int>)
    requires |v| % 4 == 0
    ensures |x| == |v| / 4 * 3
  {
    seq(|v| / 4 * 3, i requires 0 <= i < |v| / 4 * 3 =>
      var k := i / 3 * 4; Octet(v[k], v[k + 1], v[k + 2], v[k + 3], i % 3))
  }

  lemma OctetIsByte(d0: Digit, d1: Digit, d2: Digit, d3: Digit, q: nat)
    ensures 0 <= Octet(d0, d1, d2, d3, q) < 256
  {
  }

  lemma SixBitsOfOctets(d0: Digit, d1: Digit, d2: Digit, d3: Digit, a: Byte, b: Byte, c: Byte)
    requires a == Octet(d0, d1, d2, d3, 0) && b == Octet(d0, d1, d2, d3, 1) && c == Octet(d0, d1, d2, d3, 2)
    ensures SixBits(a, b, c, 0) == d0 && SixBits(a, b, c, 1) == d1
    ensures SixBits(a, b, c, 2) == d2 && SixBits(a, b, c, 3) == d3
  {
    var x1: int, x2: int := d1, d2;
    DivIs(a, 4, d0, x1 / 16);
    DivIs(b, 16, x1 % 16, x2 / 4);
    DivIs(c, 64, x2 % 4, d3);
  }

  /** Four characters of the table stand for three bytes. */
  lemma SpelledGroup(v: seq<Digit>, a: Byte, b: Byte, c: Byte)
    requires |v| >= 4
    requires a == Octet(v[0], v[1], v[2], v[3], 0) && b == Octet(v[0], v[1], v[2], v[3], 1)
    requires c == Octet(v[0], v[1], v[2], v[3], 2)
    ensures Spelled(v) == Chars(Group(a, b, c), 4) + Spelled(v[4..])
  {
    SixBitsOfOctets(v[0], v[1], v[2], v[3], a, b, c);
    hide Group, SixBits, Octet, Tabled, Chars;
    forall p | 0 <= p < 4 ensures Chars(Group(a, b, c), 4)[p] == Spelled(v[..4])[p] {
      CharsAre(a, b, c, 4, p);
    }
    SpelledApart(v);
  }

  lemma SpelledApart(v: seq<Digit>)
    requires |v| >= 4
    ensures Spelled(v) == Spelled(v[..4]) + Spelled(v[4..])
  {
    hide Tabled;
  }

  lemma FirstOctets(v: seq<Digit>, a: Byte, b: Byte, c: Byte)
    requires |v| >= 4 && |v| % 4 == 0
    requires a == Octet(v[0], v[1], v[2], v[3], 0) && b == Octet(v[0], v[1], v[2], v[3], 1)
    requires c == Octet(v[0], v[1], v[2], v[3], 2)
    ensures |v[4..]| % 4 == 0 && Octets(v) == [a, b, c] + Octets(v[4..])
  {
    hide Octet;
    var x, y := Octets(v), [a, b, c] + Octets(v[4..]);
    forall i | 0 <= i < |x| ensures x[i] == y[i] {
      if i >= 3 {
        DivIs(i, 3, (i - 3) / 3 + 1, (i - 3) % 3);
      }
    }
  }

  /** A text of whole groups decodes to the bytes that its digits in the table make. */
  lemma {:induction false} DecodedBytes(v: seq<Digit>, counter: nat)
    requires |v| % 4 == 0 && counter % 4 == 0
    ensures var r := DecodeFrom(Spelled(v), counter, 0);
            r.Some? && r.value == Octets(v)
    decreases |v|
  {
    if v == [] {
      assert Spelled(v) == "" && Octets(v) == [];
    } else {
      hide *;
      OctetIsByte(v[0], v[1], v[2], v[3], 0);
      OctetIsByte(v[0], v[1], v[2], v[3], 1);
      OctetIsByte(v[0], v[1], v[2], v[3], 2);
      var a, b := Octet(v[0], v[1], v[2], v[3], 0), Octet(v[0], v[1], v[2], v[3], 1);
      var c := Octet(v[0], v[1], v[2], v[3], 2);
      SpelledGroup(v, a, b, c);
      FirstOctets(v, a, b, c);
      Places(counter);
      DecodedBytes(v[4..], counter + 4);
      var r := DecodeFrom(Spelled(v[4..]), counter + 4, 0);
      PrependNothing(r);
      PrependToNothing(r.value);
      DecodeOneMoreGroup(a, b, c, Spelled(v[4..]), r.value, Some([]), counter);
      PrependToNothing([a, b, c] + r.value);
    }
  }

  // ---------------------------------------------------------------- texts put together

  /** What y decodes to on top of a register holding a and b: its first two bytes change. */
  function OnTop(y: seq<Byte>, a: Byte, b: Byte): seq<Byte> {
    if y == [] then []
    else if |y| == 1 then [(y[0] as int + a) % 256]
    else [FirstOnTop(y[0], y[1], a, b), (y[1] as int + b) % 256] + y[2..]
  }

  /** The bytes of a group on top of a and b. */
  lemma GivenOnTop(p: Byte, q: Byte, r: Byte, a: Byte, b: Byte)
    ensures var n, left := Group(p, q, r), a as int * 0x10000 + b as int * 0x100;
            && Emitted(1, left + Digits(n, 2)) == [FirstOnTop(p, q, a, b)]
            && Emitted(2, left + Digits(n, 3)) == [(q as int + b) % 256]
            && Emitted(3, left + Digits(n, 4)) == [r]
  {
    hide *;
    FirstByteOnTop(p, q, r, a, b);
    SecondByteOnTop(p, q, r, a, b);
    ThirdByteOnTop(p, q, r, a, b);
  }

  lemma FirstByteOnTop(p: Byte, q: Byte, r: Byte, a: Byte, b: Byte)
    ensures Emitted(1, a as int * 0x10000 + b as int * 0x100 + Digits(Group(p, q, r), 2)) == [FirstOnTop(p, q, a, b)]
  {
    hide Group, Digits, Emitted;
    DigitsAre(p, q, r);
    HighByte(a as int + p, b as int + q as int / 16 * 16);
  }

  lemma SecondByteOnTop(p: Byte, q: Byte, r: Byte, a: Byte, b: Byte)
    ensures Emitted(2, a as int * 0x10000 + b as int * 0x100 + Digits(Group(p, q, r), 3)) == [(q as int + b) % 256]
  {
    hide *;
    DigitsAre(p, q, r);
    MiddleByte(a as int + p, b as int + q, r as int / 64 * 0x40);
  }

  lemma GroupValue(p: Byte, q: Byte, r: Byte)
    ensures Group(p, q, r) == p as int * 0x10000 + q as int * 0x100 + r
  {
  }

  lemma ThirdByteOnTop(p: Byte, q: Byte, r: Byte, a: Byte, b: Byte)
    ensures Emitted(3, a as int * 0x10000 + b as int * 0x100 + Digits(Group(p, q, r), 4)) == [r]
  {
    hide Group, Digits, Emitted;
    DigitsAre(p, q, r);
    var n, h: nat := Digits(Group(p, q, r), 4), (a as int + p) * 0x100 + b + q;
    GroupValue(p, q, r);
    assert a as int * 0x10000 + b as int * 0x100 + n == h * 0x100 + r;
    hide *;
    LastByte(h, r);
  }

  function FirstOnTop(p: Byte, q: Byte, a: Byte, b: Byte): Byte {
    (p as int + a + (b + q as int / 16 * 16) / 256) % 256
  }

  lemma LastByte(h: nat, r: Byte)
    ensures Emitted(3, h * 0x100 + r) == [r]
  {
    LowByte(h, r);
  }

  lemma HighByte(h: nat, low: nat)
    ensures Emitted(1, h * 0x10000 + low * 0x100) == [(h + low / 256) % 256]
  {
    DivIs(h * 0x10000 + low * 0x100, 0x10000, h + low / 256, (low % 256) * 0x100);
  }

  lemma MiddleByte(h: nat, m: nat, low: nat)
    requires low < 0x100
    ensures Emitted(2, h * 0x10000 + m * 0x100 + low) == [m % 256]
  {
    DivIs(h * 0x10000 + m * 0x100 + low, 0x100, h * 0x100 + m, low);
    LowByte(h, m);
  }

  lemma LowByte(h: nat, l: nat)
    ensures (h * 0x100 + l) % 256 == l % 256
  {
    DivIs(h * 0x100 + l, 256, h + l / 256, l % 256);
  }

  lemma DecodeOnTop(y: seq<Byte>, a: Byte, b: Byte, counter: nat)
    requires counter % 4 == 0
    ensures DecodeFrom(Encode(y), counter, a as int * 0x10000 + b as int * 0x100) == Some(OnTop(y, a, b))
  {
    if y == [] {
    } else if |y| == 1 {
      assert y == [y[0]];
      hide *;
      DecodeOneOnTop(y[0], a, b, counter);
    } else if |y| == 2 {
      assert y == [y[0], y[1]];
      hide *;
      DecodeTwoOnTop(y[0], y[1], a, b, counter);
    } else {
      hide *;
      DecodeMoreOnTop(y, a, b, counter);
    }
  }

  lemma DecodeOneOnTop(p: Byte, a: Byte, b: Byte, counter: nat)
    requires counter % 4 == 0
    ensures DecodeFrom(Encode([p]), counter, a as int * 0x10000 + b as int * 0x100) == Some(OnTop([p], a, b))
  {
    hide *;
    var n, left: nat := Group(p, 0, 0), a as int * 0x10000 + b as int * 0x100;
    EncodeLastGroup(p, 0);
    OneOnTop(p, a, b);
    DecodeTwo(p, "==", counter, left);
    PaddingGivesNothing(counter + 2, left + Digits(n, 2));
    PrependToNothing(Given(n, 2, left));
  }

  lemma OneOnTop(p: Byte, a: Byte, b: Byte)
    ensures Given(Group(p, 0, 0), 2, a as int * 0x10000 + b as int * 0x100) == OnTop([p], a, b)
  {
    hide Given, Emitted, Digits, Group;
    GivenSteps(Group(p, 0, 0), a as int * 0x10000 + b as int * 0x100);
    GivenOnTop(p, 0, 0, a, b);
  }

  lemma TwoOnTop(p: Byte, q: Byte, a: Byte, b: Byte)
    ensures Given(Group(p, q, 0), 3, a as int * 0x10000 + b as int * 0x100) == OnTop([p, q], a, b)
  {
    hide Given, Emitted, Digits, Group;
    GivenSteps(Group(p, q, 0), a as int * 0x10000 + b as int * 0x100);
    GivenOnTop(p, q, 0, a, b);
    assert [p, q][2..] == [];
  }

  lemma DecodeTwoOnTop(p: Byte, q: Byte, a: Byte, b: Byte, counter: nat)
    requires counter % 4 == 0
    ensures DecodeFrom(Encode([p, q]), counter, a as int * 0x10000 + b as int * 0x100) == Some(OnTop([p, q], a, b))
  {
    hide *;
    var n, left: nat := Group(p, q, 0), a as int * 0x10000 + b as int * 0x100;
    EncodeLastGroup(p, q);
    TwoOnTop(p, q, a, b);
    DecodeThree(p, q, 0, "=", counter, left);
    PaddingGivesNothing(counter + 3, left + Digits(n, 3));
    PrependToNothing(Given(n, 3, left));
  }

  lemma DecodeMoreOnTop(y: seq<Byte>, a: Byte, b: Byte, counter: nat)
    requires counter % 4 == 0 && |y| >= 3
    ensures DecodeFrom(Encode(y), counter, a as int * 0x10000 + b as int * 0x100) == Some(OnTop(y, a, b))
  {
    var n, rest := Group(y[0], y[1], y[2]), Encode(y[3..]);
    var left: nat := a as int * 0x10000 + b as int * 0x100;
    assert Encode(y) == Chars(n, 4) + rest;
    MoreOnTop(y, a, b);
    hide *;
    Places(counter);
    DecodeFour(y[0], y[1], y[2], rest, counter, left);
    DecodeRest(y[3..], counter + 4);
    SomePrepended(Given(n, 4, left), y[3..]);
  }

  lemma SomePrepended(xs: seq<Byte>, ys: seq<Byte>)
    ensures Prepend(xs, Some(ys)) == Some(xs + ys)
  {
  }

  lemma MoreOnTop(y: seq<Byte>, a: Byte, b: Byte)
    requires |y| >= 3
    ensures Given(Group(y[0], y[1], y[2]), 4, a as int * 0x10000 + b as int * 0x100) + y[3..] == OnTop(y, a, b)
  {
    var first, second := FirstOnTop(y[0], y[1], a, b), (y[1] as int + b) % 256;
    assert OnTop(y, a, b) == [first, second] + y[2..];
    hide *;
    ThreeGiven(y[0], y[1], y[2], a, b, first, second);
    Joined(first, second, y);
  }

  lemma ThreeGiven(p: Byte, q: Byte, r: Byte, a: Byte, b: Byte, first: Byte, second: Byte)
    requires first == FirstOnTop(p, q, a, b) && second == (q as int + b) % 256
    ensures Given(Group(p, q, r), 4, a as int * 0x10000 + b as int * 0x100) == [first] + [second] + [r]
  {
    hide *;
    GivenSteps(Group(p, q, r), a as int * 0x10000 + b as int * 0x100);
    GivenOnTop(p, q, r, a, b);
  }

  lemma Joined(first: Byte, second: Byte, y: seq<Byte>)
    requires |y| >= 3
    ensures [first] + [second] + [y[2]] + y[3..] == [first, second] + y[2..]
  {
  }

  lemma PaddingGivesNothing(counter: nat, bits: nat)
    ensures DecodeFrom("=", counter, bits) == DecodeFrom("==", counter, bits) == Some([])
  {
    assert "="[1..] == "" && "=="[1..] == "=";
    assert DecodeFrom("=", counter + 1, bits) == Some([]);
  }

  lemma PrependToNothing(xs: seq<Byte>)
    ensures Prepend(xs, Some([])) == Some(xs)
  {
    assert xs + [] == xs;
  }

  lemma DecodeRest(y: seq<Byte>, counter: nat)
    requires counter % 4 == 0
    ensures DecodeFrom(Encode(y), counter, 0) == Some(y)
  {
    DecodeEncoding(y, "", counter);
    assert Encode(y) + "" == Encode(y) && y + [] == y;
  }

  /** When nothing of the padded group is in the way of y. */
  predicate Clean(x: seq<Byte>, y: seq<Byte>) {
    || y == [] || |x| % 3 == 0
    || (|x| % 3 == 1 && x[|x| - 1] == 0)
    || (|x| % 3 == 2 && x[|x| - 2] == 0 && (x[|x| - 1] == 0 || |y| == 1))
  }

  lemma SumKeepsIff(p: Byte, a: Byte)
    ensures (p as int + a) % 256 == p <==> a == 0
  {
  }

  lemma OnTopIsCleanIff(y: seq<Byte>, a: Byte, b: Byte)
    ensures OnTop(y, a, b) == y <==> y == [] || (a == 0 && (b == 0 || |y| == 1))
  {
    if |y| == 1 {
      SumKeepsIff(y[0], a);
      assert y == [y[0]];
    } else if |y| >= 2 {
      var first, second := FirstOnTop(y[0], y[1], a, b), (y[1] as int + b) % 256;
      SumKeepsIff(y[1], b);
      FirstWithoutCarry(y[0], y[1], a);
      assert y == [y[0], y[1]] + y[2..];
      assert OnTop(y, a, b) == [first, second] + y[2..];
      hide *;
      assert OnTop(y, a, b)[0] == first && OnTop(y, a, b)[1] == second;
    }
  }

  lemma FirstWithoutCarry(p: Byte, q: Byte, a: Byte)
    ensures FirstOnTop(p, q, a, 0) == p <==> a == 0
  {
    assert (q as int / 16 * 16) / 256 == 0;
    SumKeepsIff(p, a);
  }

  /** Padding does not empty the register: text behind it is decoded on top of what the padded group
      left there. Two encodings put together decode to the two texts just when the second is empty,
      the first needs no padding, or nothing is left that reaches the second. */
  lemma ConcatenationDecodesIff(x: seq<Byte>, y: seq<Byte>)
    ensures Decode(Encode(x) + Encode(y)) == x + y <==> Clean(x, y)
  {
    var a: Byte, b: Byte := HighLeft(x), LowLeft(x);
    CleanMeans(x, y);
    hide Encode, DecodeFrom, Left, OnTop, Clean, HighLeft, LowLeft;
    DecodeEncoding(x, Encode(y), 0);
    DecodeOnTop(y, a, b, |Encode(x)|);
    OnTopIsCleanIff(y, a, b);
    SamePrefix(x, OnTop(y, a, b), y);
  }

  lemma CleanMeans(x: seq<Byte>, y: seq<Byte>)
    ensures Clean(x, y) <==> y == [] || (HighLeft(x) == 0 && (LowLeft(x) == 0 || |y| == 1))
    ensures Left(x) == HighLeft(x) as int * 0x10000 + LowLeft(x) as int * 0x100
    ensures |Encode(x)| % 4 == 0
  {
    EncodedLength(x);
    hide Encode;
  }

  /** The bytes of the last group of x that stay in the register. */
  function HighLeft(x: seq<Byte>): Byte {
    if |x| % 3 == 0 then 0 else if |x| % 3 == 1 then x[|x| - 1] else x[|x| - 2]
  }

  function LowLeft(x: seq<Byte>): Byte {
    if |x| % 3 == 2 then x[|x| - 1] else 0
  }

  lemma SamePrefix(x: seq<Byte>, y: seq<Byte>, z: seq<Byte>)
    ensures x + y == x + z <==> y == z
  {
    if x + y == x + z {
      assert y == (x + y)[|x|..] == (x + z)[|x|..] == z;
    }
  }
}
