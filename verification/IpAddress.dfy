/** The text form of an IPv4 address. */
module IpAddress {
  import opened Common
  import opened Numbers

  /** The runs between the dots. */
  function Split(s: string): (rs: seq<string>)
    ensures |rs| >= 1
  {
    if s == "" then [""]
    else
      var rest := Split(s[1..]);
      if s[0] == '.' then [""] + rest else [[s[0]] + rest[0]] + rest[1..]
  }

  ghost predicate DigitsAndDots(s: string) {
    forall i :: 0 <= i < |s| ==> s[i] == '.' || '0' <= s[i] <= '9'
  }

  /** The texts that are addresses: digits and three dots whose four runs are each at most 255 in
      value; a run may be empty, which counts as 0, and may have any number of leading zeros. */
  ghost predicate IsAddress(s: string) {
    DigitsAndDots(s) && |Split(s)| == 4 && AllSmall(Values(Split(s)))
  }

  /** The values of the runs. */
  function Values(rs: seq<string>): (vs: seq<nat>)
    ensures |vs| == |rs|
    ensures forall i :: 0 <= i < |rs| ==> vs[i] == Accumulate(0, rs[i])
  {
    if rs == [] then [] else [Accumulate(0, rs[0])] + Values(rs[1..])
  }

  ghost predicate AllSmall(vs: seq<nat>) {
    forall i :: 0 <= i < |vs| ==> vs[i] <= 255
  }

  datatype Scanned = Scanned(ok: bool, bytes: seq<Byte>)

  /** What fromString makes of the rest s of its text. */
  function Scan(s: string, acc: Byte, dots: nat, bytes: seq<Byte>): (r: Scanned)
    requires dots <= 3 && |bytes| == 4
    ensures |r.bytes| == 4
    decreases |s|
  {
    if s == "" then (if dots != 3 then Scanned(false, bytes) else Scanned(true, bytes[3 := acc]))
    else if '0' <= s[0] <= '9' then
      var acc' := acc as int * 10 + DigitValue(s[0]);
      if acc' > 255 then Scanned(false, bytes) else Scan(s[1..], acc', dots, bytes)
    else if s[0] == '.' then
      if dots == 3 then Scanned(false, bytes) else Scan(s[1..], 0, dots + 1, bytes[dots := acc])
    else Scanned(false, bytes)
  }

  class IPAddress {
    var bytes: seq<Byte>

    ghost predicate Valid()
      reads this
    {
      |bytes| == 4
    }

    constructor (first: Byte, second: Byte, third: Byte, fourth: Byte)
      ensures Valid() && bytes == [first, second, third, fourth]
    {
      bytes := [first, second, third, fourth];
    }

    /** Parses an address; on failure the bytes of the runs already read have been stored. */
    method FromString(address: string) returns (ok: bool)
      requires Valid()
      modifies this
      ensures Valid() && Scanned(ok, bytes) == Scan(address, 0, 0, old(bytes))
    {
      var acc: Byte := 0;
      var dots := 0;
      var i := 0;
      while i < |address|
        invariant 0 <= i <= |address| && 0 <= dots <= 3 && Valid()
        invariant Scan(address, 0, 0, old(bytes)) == Scan(address[i..], acc, dots, bytes)
      {
        var c := address[i];
        assert address[i..][1..] == address[i + 1..];
        i := i + 1;
        if '0' <= c <= '9' {
          var acc': int := acc as int * 10 + DigitValue(c);
          if acc' > 255 { return false; }
          acc := acc';
        } else if c == '.' {
          if dots == 3 { return false; }
          bytes := bytes[dots := acc];
          dots := dots + 1;
          acc := 0;
        } else {
          return false;
        }
      }
      if dots != 3 { return false; }
      bytes := bytes[3 := acc];
      ok := true;
    }

    /** toString: the same text, appended piece by piece. */
    method ToString() returns (s: string)
      requires Valid()
      ensures s == AddressText(bytes)
    {
      s := ToText(bytes[0], 10) + ".";
      s := s + ToText(bytes[1], 10) + ".";
      s := s + ToText(bytes[2], 10) + ".";
      s := s + ToText(bytes[3], 10);
      DottedText(bytes);
    }

    method PrintTo() returns (printed: string)
      requires Valid()
      ensures printed == AddressText(bytes)
    {
      printed := "";
      var i := 0;
      while i < 3
        invariant 0 <= i <= 3 && printed == Dotted(bytes, i)
      {
        printed := printed + ToText(bytes[i], 10);
        printed := printed + ".";
        i := i + 1;
      }
      printed := printed + ToText(bytes[3], 10);
      DottedText(bytes);
    }
  }

  /** The first n bytes, each with a dot behind it. */
  function Dotted(bytes: seq<Byte>, n: nat): string
    requires n <= |bytes|
  {
    if n == 0 then "" else Dotted(bytes, n - 1) + ToText(bytes[n - 1], 10) + "."
  }

  function AddressText(bytes: seq<Byte>): string
    requires |bytes| == 4
  {
    ToText(bytes[0], 10) + "." + (ToText(bytes[1], 10) + "." + (ToText(bytes[2], 10) + "." + ToText(bytes[3], 10)))
  }

  lemma DottedText(bytes: seq<Byte>)
    requires |bytes| == 4
    ensures Dotted(bytes, 3) + ToText(bytes[3], 10) == AddressText(bytes)
    ensures ToText(bytes[0], 10) + "." + ToText(bytes[1], 10) + "." + ToText(bytes[2], 10) + "." + ToText(bytes[3], 10)
            == AddressText(bytes)
  {
    hide ToText;
    var a, b, c, d := ToText(bytes[0], 10), ToText(bytes[1], 10), ToText(bytes[2], 10), ToText(bytes[3], 10);
    assert "" + a == a;
    assert Dotted(bytes, 1) == a + ".";
    assert Dotted(bytes, 2) == a + "." + b + ".";
    assert Dotted(bytes, 3) == a + "." + b + "." + c + ".";
    hide *;
    Assoc(a + "." + b + ".", c, ".");
    Assoc(a + "." + b + ".", c + ".", d);
    Assoc(a + ".", b, ".");
    Assoc(a + ".", b + ".", c + "." + d);
  }

  // ---------------------------------------------------------------- what is accepted

  /** The values of the runs of s when the first of them continues a run worth acc. */
  function ValuesFrom(acc: nat, s: string): (vs: seq<nat>)
    ensures |vs| == |Split(s)|
  {
    [Accumulate(acc, Split(s)[0])] + Values(Split(s)[1..])
  }

  lemma SplitDigit(s: string)
    requires s != "" && s[0] != '.'
    ensures var rest := Split(s[1..]);
            Split(s)[0] == [s[0]] + rest[0] && Split(s)[1..] == rest[1..] && |Split(s)| == |rest|
  {
  }

  lemma TailIsDigitsAndDots(s: string)
    requires s != "" && (s[0] == '.' || '0' <= s[0] <= '9')
    ensures DigitsAndDots(s) <==> DigitsAndDots(s[1..])
  {
    var t := s[1..];
    assert forall i :: 0 < i < |s| ==> t[i - 1] == s[i];
  }

  lemma DigitFirst(acc: nat, s: string)
    requires s != "" && '0' <= s[0] <= '9'
    ensures var acc' := acc * 10 + DigitValue(s[0]);
            && ValuesFrom(acc, s) == ValuesFrom(acc', s[1..])
            && (acc' > 255 ==> !AllSmall(ValuesFrom(acc, s)))
  {
    SplitDigit(s);
    hide Split, Values;
    var d, rest := s[0], Split(s[1..])[0];
    var acc' := acc * 10 + DigitValue(d);
    assert ([d] + rest)[1..] == rest;
    assert Accumulate(acc, [d] + rest) == Accumulate(acc', rest);
    AccumulateGrows(acc', rest);
    assert ValuesFrom(acc, s)[0] == Accumulate(acc', rest);
  }

  lemma DotFirst(acc: nat, s: string)
    requires s != "" && s[0] == '.'
    ensures ValuesFrom(acc, s) == [acc] + ValuesFrom(0, s[1..]) && |Split(s)| == 1 + |Split(s[1..])|
    ensures acc <= 255 ==> (AllSmall(ValuesFrom(acc, s)) <==> AllSmall(ValuesFrom(0, s[1..])))
  {
    var rest := Split(s[1..]);
    assert Split(s)[1..] == rest;
    var vs := ValuesFrom(0, s[1..]);
    assert Values(rest) == vs;
    assert forall i :: 0 <= i < |vs| ==> ([acc] + vs)[i + 1] == vs[i];
  }

  lemma NothingLeft(acc: nat)
    ensures DigitsAndDots("") && |Split("")| == 1 && ValuesFrom(acc, "") == [acc]
    ensures AllSmall([acc]) <==> acc <= 255
  {
    if AllSmall([acc]) {
      assert [acc][0] <= 255;
    }
  }

  lemma ForeignCharacter(s: string)
    requires s != "" && s[0] != '.' && !('0' <= s[0] <= '9')
    ensures !DigitsAndDots(s)
  {
  }

  /** From inside a run that has the value acc so far: the rest is accepted just when it completes
      four runs with values of at most 255, and these are the bytes stored. Stopping at the first
      value above 255 loses nothing, for more digits only make it larger. */
  lemma {:induction false} ScanAcceptsIff(s: string, acc: Byte, dots: nat, bytes: seq<Byte>)
    requires dots <= 3 && |bytes| == 4
    ensures var r := Scan(s, acc, dots, bytes);
            && (r.ok <==> DigitsAndDots(s) && dots + |Split(s)| == 4 && AllSmall(ValuesFrom(acc, s)))
            && (r.ok ==> r.bytes == bytes[..dots] + ValuesFrom(acc, s))
    decreases |s|
  {
    hide ValuesFrom, AllSmall, Split, DigitsAndDots, DigitValue, Values;
    if s == "" {
      NothingLeft(acc);
    } else if '0' <= s[0] <= '9' {
      SplitDigit(s);
      TailIsDigitsAndDots(s);
      DigitFirst(acc, s);
      var acc' := acc as int * 10 + DigitValue(s[0]);
      if acc' <= 255 {
        ScanAcceptsIff(s[1..], acc', dots, bytes);
      }
    } else if s[0] == '.' {
      TailIsDigitsAndDots(s);
      DotFirst(acc, s);
      if dots < 3 {
        ScanAcceptsIff(s[1..], 0, dots + 1, bytes[dots := acc]);
        assert bytes[dots := acc][..dots + 1] == bytes[..dots] + [acc as nat];
      }
    } else {
      ForeignCharacter(s);
    }
  }

  /** fromString accepts exactly the addresses, and stores their four values. */
  lemma AcceptsExactlyAddresses(s: string, bytes: seq<Byte>)
    requires |bytes| == 4
    ensures var r := Scan(s, 0, 0, bytes);
            (r.ok <==> IsAddress(s)) && (r.ok ==> r.bytes == Values(Split(s)))
  {
    ScanAcceptsIff(s, 0, 0, bytes);
    assert ValuesFrom(0, s) == Values(Split(s));
    assert bytes[..0] + ValuesFrom(0, s) == ValuesFrom(0, s);
  }

  /** How many runs in front, at most `room`, have a dot behind them, are digits and are worth at most 255. */
  ghost function Leading(runs: seq<string>, vs: seq<nat>, room: nat): (n: nat)
    requires |runs| == |vs|
    ensures n <= room && (|runs| > 0 ==> n < |runs|)
  {
    if room == 0 || |runs| <= 1 || !AllDigits(runs[0]) || vs[0] > 255 then 0
    else 1 + Leading(runs[1..], vs[1..], room - 1)
  }

  lemma LeadingDigit(runs: seq<string>, rest: seq<string>, vs: seq<nat>, room: nat, d: char)
    requires |runs| == |rest| == |vs| && runs != [] && '0' <= d <= '9'
    requires runs[0] == [d] + rest[0] && runs[1..] == rest[1..]
    ensures Leading(runs, vs, room) == Leading(rest, vs, room)
  {
    assert forall i :: 0 <= i < |rest[0]| ==> rest[0][i] == runs[0][i + 1];
    assert AllDigits(runs[0]) <==> AllDigits(rest[0]);
  }

  lemma LeadingDot(runs: seq<string>, vs: seq<nat>, acc: Byte, room: nat)
    requires |runs| == |vs| && runs != [] && room > 0
    ensures Leading([""] + runs, [acc as nat] + vs, room) == 1 + Leading(runs, vs, room - 1)
  {
    assert ([""] + runs)[1..] == runs && ([acc as nat] + vs)[1..] == vs;
  }

  lemma LeadingForeign(s: string, vs: seq<nat>, room: nat)
    requires s != "" && s[0] != '.' && !('0' <= s[0] <= '9') && |vs| == |Split(s)|
    ensures Leading(Split(s), vs, room) == 0
  {
    SplitDigit(s);
    assert Split(s)[0][0] == s[0];
  }

  /** What is stored of runs vs behind the first `dots` of them. */
  ghost function Kept(bytes: seq<Byte>, dots: nat, runs: seq<string>, vs: seq<nat>): seq<nat>
    requires dots <= 3 && |bytes| == 4 && |runs| == |vs| > 0
  {
    var n := Leading(runs, vs, 3 - dots);
    bytes[..dots] + vs[..n] + bytes[dots + n..]
  }

  /** When the text is refused, just the runs in front that have been read completely are stored. */
  lemma {:induction false} FailureStores(s: string, acc: Byte, dots: nat, bytes: seq<Byte>)
    requires dots <= 3 && |bytes| == 4
    ensures var r := Scan(s, acc, dots, bytes);
            !r.ok ==> r.bytes == Kept(bytes, dots, Split(s), ValuesFrom(acc, s))
    decreases |s|
  {
    var runs, vs, rest := Split(s), ValuesFrom(acc, s), if s == "" then "" else s[1..];
    NothingKept(bytes, dots, runs, vs);
    hide ValuesFrom, Split, DigitValue, Values, Leading, AllSmall, DigitsAndDots, Accumulate, Kept, AllDigits;
    if s == "" {
      NothingLeft(acc);
    } else if s[0] == '.' {
      if dots < 3 {
        FailureStores(rest, 0, dots + 1, bytes[dots := acc]);
        SplitDot(s, acc);
        KeptDot(bytes, dots, acc, Split(rest), ValuesFrom(0, rest));
      }
    } else if '0' <= s[0] <= '9' {
      var acc' := acc as int * 10 + DigitValue(s[0]);
      SplitDigit(s);
      if acc' <= 255 {
        FailureStores(rest, acc', dots, bytes);
        DigitFirst(acc, s);
        KeptDigit(bytes, dots, runs, Split(rest), vs, s[0]);
      } else {
        TooLarge(acc, s);
      }
    } else {
      LeadingForeign(s, vs, 3 - dots);
    }
  }

  lemma NothingKept(bytes: seq<Byte>, dots: nat, runs: seq<string>, vs: seq<nat>)
    requires dots <= 3 && |bytes| == 4 && |runs| == |vs| > 0
    ensures |runs| == 1 || vs[0] > 255 || dots == 3 || Leading(runs, vs, 3 - dots) == 0 ==>
              Kept(bytes, dots, runs, vs) == bytes
  {
    assert bytes[..dots] + vs[..0] + bytes[dots + 0..] == bytes;
  }

  lemma KeptDigit(bytes: seq<Byte>, dots: nat, runs: seq<string>, rest: seq<string>, vs: seq<nat>, d: char)
    requires dots <= 3 && |bytes| == 4 && |runs| == |rest| == |vs| > 0 && '0' <= d <= '9'
    requires runs[0] == [d] + rest[0] && runs[1..] == rest[1..]
    ensures Kept(bytes, dots, runs, vs) == Kept(bytes, dots, rest, vs)
  {
    LeadingDigit(runs, rest, vs, 3 - dots, d);
  }

  lemma KeptDot(bytes: seq<Byte>, dots: nat, acc: Byte, runs: seq<string>, vs: seq<nat>)
    requires dots < 3 && |bytes| == 4 && |runs| == |vs| > 0
    ensures Kept(bytes[dots := acc], dots + 1, runs, vs) == Kept(bytes, dots, [""] + runs, [acc as nat] + vs)
  {
    LeadingDot(runs, vs, acc, 3 - dots);
    StoredBehind(bytes, dots, acc, vs, Leading(runs, vs, 2 - dots));
  }

  lemma SplitDot(s: string, acc: nat)
    requires s != "" && s[0] == '.'
    ensures Split(s) == [""] + Split(s[1..]) && ValuesFrom(acc, s) == [acc] + ValuesFrom(0, s[1..])
  {
    DotFirst(acc, s);
  }

  lemma TooLarge(acc: Byte, s: string)
    requires s != "" && '0' <= s[0] <= '9' && acc as int * 10 + DigitValue(s[0]) > 255
    ensures ValuesFrom(acc, s)[0] > 255
  {
    var d, rest := s[0], Split(s[1..])[0];
    var acc' := acc as int * 10 + DigitValue(d);
    SplitDigit(s);
    assert ([d] + rest)[1..] == rest;
    assert Accumulate(acc, [d] + rest) == Accumulate(acc', rest);
    AccumulateGrows(acc', rest);
  }

  lemma StoredBehind(bytes: seq<Byte>, dots: nat, acc: Byte, vs: seq<nat>, n: nat)
    requires |bytes| == 4 && dots < 3 && n <= 2 - dots && n <= |vs|
    ensures var stored: seq<nat> := bytes[dots := acc][..dots + 1] + vs[..n] + bytes[dots := acc][dots + 1 + n..];
            stored == bytes[..dots] + ([acc as nat] + vs)[..n + 1] + bytes[dots + (n + 1)..]
  {
    assert ([acc as nat] + vs)[..n + 1] == [acc as nat] + vs[..n];
  }

  // ---------------------------------------------------------------- round trip

  /** A run of digits in front of a dot. */
  lemma {:induction false} SplitAfterRun(run: string, s: string)
    requires AllDigits(run)
    ensures Split(run + "." + s) == [run] + Split(s)
    ensures Split(run) == [run]
  {
    if run == "" {
      assert run + "." + s == "." + s;
      assert ("." + s)[1..] == s;
    } else {
      var t := run + "." + s;
      assert t[1..] == run[1..] + "." + s;
      SplitAfterRun(run[1..], s);
      assert [run[0]] + run[1..] == run;
    }
  }

  lemma PrintedRun(n: nat, s: string)
    ensures DigitsAndDots(s) ==> DigitsAndDots(ToText(n, 10) + "." + s)
    ensures Split(ToText(n, 10) + "." + s) == [ToText(n, 10)] + Split(s)
    ensures Split(ToText(n, 10)) == [ToText(n, 10)] && DigitsAndDots(ToText(n, 10))
    ensures Accumulate(0, ToText(n, 10)) == n
  {
    PrintedDigits(n);
    SplitAfterRun(ToText(n, 10), s);
  }

  lemma PrintedAddress(bytes: seq<Byte>)
    requires |bytes| == 4
    ensures var s := AddressText(bytes);
            && DigitsAndDots(s) && Values(Split(s)) == bytes
            && |Split(s)| == 4 && forall i :: 0 <= i < 4 ==> Split(s)[i] == ToText(bytes[i], 10)
  {
    hide DigitsAndDots, Split, Accumulate, ToText;
    var t3 := ToText(bytes[3], 10);
    var t2 := ToText(bytes[2], 10) + "." + t3;
    var t1 := ToText(bytes[1], 10) + "." + t2;
    PrintedRun(bytes[3], "");
    PrintedRun(bytes[2], t3);
    PrintedRun(bytes[1], t2);
    PrintedRun(bytes[0], t1);
    var rs := Split(AddressText(bytes));
    assert rs == [ToText(bytes[0], 10), ToText(bytes[1], 10), ToText(bytes[2], 10), t3];
  }

  /** Parsing the text of an address gives the address back, whatever was there before. */
  lemma RoundTrip(bytes: seq<Byte>, before: seq<Byte>)
    requires |bytes| == 4 && |before| == 4
    ensures Scan(AddressText(bytes), 0, 0, before) == Scanned(true, bytes)
  {
    PrintedAddress(bytes);
    AcceptsExactlyAddresses(AddressText(bytes), before);
    hide AddressText, Split, Scan, Values;
    assert IsAddress(AddressText(bytes));
  }
}
