/** Stream::parseInt, which reads back what the number printers write in base 10. */
module ParseInt {
  import opened ByteStream
  import opened Common
  import opened Numbers

  datatype Lookahead = SKIP_ALL | SKIP_NONE | SKIP_WHITESPACE

  const MINUS: int := '-' as int
  const ZERO: int := '0' as int

  predicate IsDigit(c: int) {
    ZERO <= c <= '9' as int
  }

  predicate IsBlank(c: int) {
    c == ' ' as int || c == '\t' as int || c == '\r' as int || c == '\n' as int
  }

  /** May this character be skipped in search of a number? */
  predicate Skips(lookahead: Lookahead, c: int) {
    lookahead == SKIP_ALL || (lookahead == SKIP_WHITESPACE && IsBlank(c))
  }

  /** Where the search for the first digit or sign stops. */
  function SkipFrom(data: seq<Byte>, pos: nat, lookahead: Lookahead): (p: nat)
    ensures pos <= |data| ==> pos <= p <= |data|
    decreases |data| - pos
  {
    if pos >= |data| || data[pos] == MINUS || IsDigit(data[pos]) || !Skips(lookahead, data[pos]) then pos
    else SkipFrom(data, pos + 1, lookahead)
  }

  /** A digit or a minus sign, by its code. */
  predicate StartsNumber(c: int) {
    c == 45 || 48 <= c <= 57
  }

  /** Space, tab, carriage return or line feed, by its code. */
  predicate IsSpace(c: int) {
    c in {9, 10, 13, 32}
  }

  /** What each mode skips: up to the first digit or sign whatever stands before it; nothing; or up to the
      first character that is no white space. */
  lemma {:induction false} SkipFromIsLeast(data: seq<Byte>, pos: nat, lookahead: Lookahead)
    requires pos <= |data|
    ensures var p := SkipFrom(data, pos, lookahead);
            match lookahead
            case SKIP_ALL =>
              (forall i :: pos <= i < p ==> !StartsNumber(data[i])) && (p < |data| ==> StartsNumber(data[p]))
            case SKIP_NONE => p == pos
            case SKIP_WHITESPACE =>
              (forall i :: pos <= i < p ==> IsSpace(data[i])) && (p < |data| ==> !IsSpace(data[p]))
    decreases |data| - pos
  {
    if SkipFrom(data, pos, lookahead) != pos {
      SkipFromIsLeast(data, pos + 1, lookahead);
    }
  }

  /** What may stand before a number for the mode to find it. */
  predicate Skippable(data: seq<Byte>, pos: nat, at: nat, lookahead: Lookahead)
    requires pos <= at <= |data|
  {
    match lookahead
    case SKIP_ALL => forall i :: pos <= i < at ==> !StartsNumber(data[i])
    case SKIP_NONE => pos == at
    case SKIP_WHITESPACE => forall i :: pos <= i < at ==> IsSpace(data[i])
  }

  /** A number is found just behind what its mode skips. */
  lemma {:induction false} SkipsTo(data: seq<Byte>, pos: nat, at: nat, lookahead: Lookahead)
    requires pos <= at < |data| && NumberAt(data, at)
    ensures SkipFrom(data, pos, lookahead) == at <==> Skippable(data, pos, at, lookahead)
  {
    SkipFromIsLeast(data, pos, lookahead);
    var p := SkipFrom(data, pos, lookahead);
    assert p < at && Skippable(data, pos, at, lookahead) ==> lookahead.SKIP_ALL? || lookahead.SKIP_WHITESPACE?;
  }

  /** What has been read of a number. `overflow` says that `value * 10 + c - '0'`, evaluated from left
      to right, has left the range of long on the way. */
  datatype Parse = Parse(pos: nat, negative: bool, value: nat, overflow: bool)

  /** One character of the number. */
  function Take(p: Parse, c: int, ignore: int): Parse {
    if c == ignore then p.(pos := p.pos + 1)
    else if c == MINUS then p.(pos := p.pos + 1, negative := true)
    else if IsDigit(c) then
      Parse(p.pos + 1, p.negative, p.value * 10 + (c - ZERO), p.overflow || p.value * 10 + c > LONG_MAX)
    else p.(pos := p.pos + 1)
  }

  /** The characters of the number from p.pos on. */
  function Scan(data: seq<Byte>, p: Parse, ignore: int): Parse
    requires p.pos < |data|
    decreases |data| - p.pos
  {
    var p' := Take(p, data[p.pos], ignore);
    if p'.pos < |data| && (IsDigit(data[p'.pos]) || data[p'.pos] == ignore) then Scan(data, p', ignore) else p'
  }

  /** The loop cut off after n rounds: what it has read, if it has ended by then. At the end of the stream
      a peek delivers -1 and a read consumes nothing. */
  function Rounds(data: seq<Byte>, p: Parse, ignore: int, n: nat): Option<Parse>
    requires p.pos <= |data|
    decreases n
  {
    if n == 0 then None
    else
      var p' := if p.pos == |data| then p else Take(p, data[p.pos], ignore);
      var c := PeekAt(data, p'.pos);
      if IsDigit(c) || c == ignore then Rounds(data, p', ignore, n - 1) else Some(p')
  }

  /** The digits from pos on run up to the end of the stream. */
  predicate DigitsToEnd(data: seq<Byte>, pos: nat) {
    forall i :: pos <= i < |data| ==> IsDigit(data[i])
  }

  /** The loop runs for ever on a number that begins at `pos`. */
  predicate NeverEnds(data: seq<Byte>, pos: nat, ignore: int) {
    ignore == -1 && DigitsToEnd(data, pos + 1)
  }

  /** Otherwise it ends, with what Scan says. */
  lemma {:induction false} LoopEnds(data: seq<Byte>, p: Parse, ignore: int) returns (n: nat)
    requires p.pos < |data| && !NeverEnds(data, p.pos, ignore)
    ensures Rounds(data, p, ignore, n) == Some(Scan(data, p, ignore))
    decreases |data| - p.pos
  {
    var p' := Take(p, data[p.pos], ignore);
    if p'.pos < |data| && (IsDigit(data[p'.pos]) || data[p'.pos] == ignore) {
      n := LoopEnds(data, p', ignore);
      n := n + 1;
    } else {
      n := 1;
    }
  }

  lemma {:induction false} LoopGoesOn(data: seq<Byte>, p: Parse, n: nat)
    requires p.pos <= |data| && DigitsToEnd(data, p.pos + 1)
    ensures Rounds(data, p, -1, n) == None
    decreases n
  {
    if n > 0 {
      LoopGoesOn(data, if p.pos == |data| then p else Take(p, data[p.pos], -1), n - 1);
    }
  }

  /** From a first digit or sign on, the loop ends at all just when `ignore` is not -1 or something that
      is not a digit follows; and then it ends with what Scan says. */
  lemma LoopEndsIff(data: seq<Byte>, p: Parse, ignore: int)
    requires p.pos < |data|
    ensures (exists n: nat :: Rounds(data, p, ignore, n).Some?)
            <==> !(ignore == -1 && forall i :: p.pos < i < |data| ==> IsDigit(data[i]))
    ensures forall n: nat :: Rounds(data, p, ignore, n).Some? ==>
              Rounds(data, p, ignore, n) == Some(Scan(data, p, ignore))
  {
    if NeverEnds(data, p.pos, ignore) {
      forall n: nat ensures Rounds(data, p, ignore, n) == None {
        LoopGoesOn(data, p, n);
      }
    } else {
      var n := LoopEnds(data, p, ignore);
      forall m: nat | Rounds(data, p, ignore, m).Some?
        ensures Rounds(data, p, ignore, m) == Rounds(data, p, ignore, n)
      {
        OneOutcome(data, p, ignore, m, n);
      }
    }
  }

  lemma {:induction false} OneOutcome(data: seq<Byte>, p: Parse, ignore: int, m: nat, n: nat)
    requires p.pos <= |data| && Rounds(data, p, ignore, m).Some? && Rounds(data, p, ignore, n).Some?
    ensures Rounds(data, p, ignore, m) == Rounds(data, p, ignore, n)
    decreases m
  {
    var p' := if p.pos == |data| then p else Take(p, data[p.pos], ignore);
    var c := PeekAt(data, p'.pos);
    if IsDigit(c) || c == ignore { OneOutcome(data, p', ignore, m - 1, n - 1); }
  }

  /** What parseInt makes of the stream from pos on. */
  function Parsed(data: seq<Byte>, pos: nat, lookahead: Lookahead, ignore: int): Option<Parse>
    requires pos <= |data|
  {
    var start := SkipFrom(data, pos, lookahead);
    if NumberAt(data, start) then
      Some(Scan(data, Parse(start, false, 0, false), ignore))
    else None
  }

  /** A digit or sign stands at pos. */
  predicate NumberAt(data: seq<Byte>, pos: nat) {
    pos < |data| && (data[pos] == MINUS || IsDigit(data[pos]))
  }

  /** parseInt: consumes and evaluates the next integer; 0 if there is none. Where its loop never ends
      there is nothing to promise. */
  method ParseLong(stream: Stream, lookahead: Lookahead, ignore: int) returns (value: int, ghost overflow: bool)
    requires stream.Valid()
    requires var start := SkipFrom(stream.data, stream.pos, lookahead);
             !(NumberAt(stream.data, start) && NeverEnds(stream.data, start, ignore))
    modifies stream
    ensures stream.Valid()
    ensures match Parsed(stream.data, old(stream.pos), lookahead, ignore)
            case Some(p) =>
              value == (if p.negative then 0 - p.value else p.value) && overflow == p.overflow && stream.pos == p.pos
            case None => value == 0 && !overflow && stream.pos == SkipFrom(stream.data, old(stream.pos), lookahead)
  {
    hide Scan;
    var c := PeekNextDigit(stream, lookahead);
    if c < 0 { return 0, false; }
    var isNegative;
    isNegative, value, overflow := ReadNumber(stream, c, ignore);
    if isNegative {
      value := -value;
    }
  }

  /** The loop of parseInt, from the first digit or sign c on. */
  method ReadNumber(stream: Stream, first: int, ignore: int)
    returns (isNegative: bool, value: nat, ghost overflow: bool)
    requires stream.Valid() && stream.pos < |stream.data| && first == stream.data[stream.pos]
    requires !NeverEnds(stream.data, stream.pos, ignore)
    modifies stream
    ensures stream.Valid()
    ensures Scan(stream.data, Parse(old(stream.pos), false, 0, false), ignore)
            == Parse(stream.pos, isNegative, value, overflow)
  {
    hide PeekAt;
    isNegative, value, overflow := false, 0, false;
    ghost var start := stream.pos;
    var c := first;
    while true
      invariant stream.Valid() && start <= stream.pos < |stream.data| && c == stream.data[stream.pos]
      invariant Scan(stream.data, Parse(start, false, 0, false), ignore)
                == Scan(stream.data, Parse(stream.pos, isNegative, value, overflow), ignore)
      invariant ignore == -1 ==> forall i :: start < i <= stream.pos ==> IsDigit(stream.data[i])
      decreases |stream.data| - stream.pos
    {
      if c == ignore {
      } else if c == MINUS {
        isNegative := true;
      } else if IsDigit(c) {
        overflow := overflow || value * 10 + c > LONG_MAX;
        value := value * 10 + c - ZERO;
      }
      var _ := stream.TimedRead();
      c := stream.TimedPeek();
      PeekIs(stream.data, stream.pos);
      if !(IsDigit(c) || c == ignore) { break; }
    }
  }

  lemma PeekIs(data: seq<Byte>, pos: nat)
    ensures PeekAt(data, pos) == if pos < |data| then data[pos] else -1
  {
  }

  method PeekNextDigit(stream: Stream, lookahead: Lookahead) returns (c: int)
    requires stream.Valid()
    modifies stream
    ensures stream.Valid() && stream.pos == SkipFrom(stream.data, old(stream.pos), lookahead)
    ensures var d := PeekAt(stream.data, stream.pos);
            c == if d == MINUS || IsDigit(d) then d else -1
  {
    while true
      invariant stream.Valid()
      invariant SkipFrom(stream.data, stream.pos, lookahead) == SkipFrom(stream.data, old(stream.pos), lookahead)
      decreases |stream.data| - stream.pos
    {
      c := stream.TimedPeek();
      if c < 0 || c == MINUS || IsDigit(c) { return; }
      if !Skips(lookahead, c) { return -1; }
      var _ := stream.TimedRead();
    }
  }

  // ---------------------------------------------------------------- reading back a printed number

  /** The text t stands at pos. */
  ghost predicate StandsAt(data: seq<Byte>, pos: nat, t: string) {
    pos + |t| <= |data| && forall i :: 0 <= i < |t| ==> data[pos + i] == t[i] as int
  }

  /** A character that ends a number. */
  predicate Ends(c: int, ignore: int) {
    !IsDigit(c) && c != ignore
  }

  /** A text without the character that is to be ignored. */
  function Without(s: string, ignore: int): string {
    if s == "" then "" else (if s[0] as int == ignore then "" else [s[0]]) + Without(s[1..], ignore)
  }

  /** Digits, with characters to be ignored anywhere among them. */
  ghost predicate DigitsOr(s: string, ignore: int) {
    forall i :: 0 <= i < |s| ==> '0' <= s[i] <= '9' || s[i] as int == ignore
  }

  lemma WithoutFirst(p: Parse, s: string, ignore: int)
    requires s != "" && DigitsOr(s, ignore)
    ensures var p', digits, rest := Take(p, s[0] as int, ignore), Without(s, ignore), Without(s[1..], ignore);
            && p'.pos == p.pos + 1 && p'.negative == p.negative
            && Accumulate(p.value, digits) == Accumulate(p'.value, rest)
            && p'.overflow == (p.overflow || (s[0] as int != ignore && p'.value + 48 > LONG_MAX))
            && (digits == "" <==> s[0] as int == ignore && rest == "")
  {
    var rest := Without(s[1..], ignore);
    AccumulateFirst(p.value, s[0], rest);
    hide Accumulate;
    assert Without(s, ignore) == if s[0] as int == ignore then rest else [s[0]] + rest;
  }

  lemma AccumulateFirst(v: nat, c: char, s: string)
    ensures Accumulate(v, [c] + s) == Accumulate(v * 10 + DigitValue(c), s)
  {
    assert ([c] + s)[1..] == s;
  }

  lemma ScanOne(data: seq<Byte>, p: Parse, s: string, ignore: int)
    requires s != "" && StandsAt(data, p.pos, s) && DigitsOr(s, ignore)
    requires Ends(PeekAt(data, p.pos + |s|), ignore)
    ensures var p' := Take(p, s[0] as int, ignore);
            Scan(data, p, ignore) == if |s| > 1 then Scan(data, p', ignore) else p'
    ensures StandsAt(data, p.pos + 1, s[1..]) && DigitsOr(s[1..], ignore)
  {
    assert data[p.pos + 0] == s[0] as int;
    if |s| > 1 { assert data[p.pos + 1] == s[1] as int; }
    StandsBehind(data, p.pos, s);
  }

  /** What the loop makes of a run of digits and characters to be ignored: it takes all of it and no more,
      and evaluates the digits alone; a value that is within 48 of the largest long overflows on the way. */
  lemma {:induction false} ScanIgnoring(data: seq<Byte>, p: Parse, s: string, ignore: int)
    requires s != "" && DigitsOr(s, ignore) && StandsAt(data, p.pos, s)
    requires Ends(PeekAt(data, p.pos + |s|), ignore)
    ensures var digits := Without(s, ignore);
            Scan(data, p, ignore)
            == Parse(p.pos + |s|, p.negative, Accumulate(p.value, digits),
                     p.overflow || (digits != "" && Accumulate(p.value, digits) + 48 > LONG_MAX))
    decreases |s|
  {
    ScanOne(data, p, s, ignore);
    WithoutFirst(p, s, ignore);
    var p', rest := Take(p, s[0] as int, ignore), s[1..];
    NothingLeft(p'.value, ignore);
    hide *;
    AccumulateGrows(p'.value, Without(rest, ignore));
    if |s| > 1 {
      ScanIgnoring(data, p', rest, ignore);
    } else {
      assert rest == "";
    }
  }

  lemma NothingLeft(v: nat, ignore: int)
    ensures Accumulate(v, "") == v && Without("", ignore) == ""
  {
  }

  lemma StandsBehind(data: seq<Byte>, pos: nat, s: string)
    requires s != "" && StandsAt(data, pos, s)
    ensures StandsAt(data, pos + 1, s[1..])
  {
    forall i | 0 <= i < |s| - 1 ensures data[pos + 1 + i] == s[1..][i] as int {
      assert data[pos + (1 + i)] == s[1 + i] as int;
    }
  }

  lemma {:induction false} NothingToIgnore(s: string, ignore: int)
    requires AllDigits(s) && !IsDigit(ignore)
    ensures Without(s, ignore) == s
  {
    if s != "" { NothingToIgnore(s[1..], ignore); }
  }

  /** A run of digits alone. */
  lemma ScanDigits(data: seq<Byte>, p: Parse, s: string, ignore: int)
    requires s != "" && AllDigits(s) && StandsAt(data, p.pos, s) && !IsDigit(ignore)
    requires Ends(PeekAt(data, p.pos + |s|), ignore)
    ensures Scan(data, p, ignore)
            == Parse(p.pos + |s|, p.negative, Accumulate(p.value, s),
                     p.overflow || Accumulate(p.value, s) + 48 > LONG_MAX)
  {
    hide Scan, Accumulate;
    NothingToIgnore(s, ignore);
    ScanIgnoring(data, p, s, ignore);
  }

  /** parseInt reads back what print and ltoa write in base 10, behind anything that the lookahead skips,
      and leaves the rest of the stream; it does so without overflow just when the number is not within 48
      of the largest long, in magnitude. `ignore` is not a digit or sign, and what follows is not a digit
      or `ignore`. */
  lemma ParseReadsBackPrinted(data: seq<Byte>, pos: nat, at: nat, n: Long, lookahead: Lookahead, ignore: int)
    requires StandsAt(data, at, SignedText(n, 10, TWO64)) && !IsDigit(ignore) && ignore != MINUS
    requires pos <= at && Skippable(data, pos, at, lookahead)
    requires Ends(PeekAt(data, at + |SignedText(n, 10, TWO64)|), ignore)
    ensures var parsed, magnitude := Parsed(data, pos, lookahead, ignore), if n < 0 then 0 - n else n;
            && parsed.Some?
            && var p := parsed.value;
               && (if p.negative then 0 - p.value else p.value) == n
               && p.pos == at + |SignedText(n, 10, TWO64)|
               && (p.overflow <==> magnitude > LONG_MAX - 48)
  {
    hide SkipFrom, Scan, StandsAt, SignedText, ToText, Skippable;
    SignAndMagnitude(n);
    if n < 0 {
      NegativeReadsBack(data, at, 0 - n, ignore);
    } else {
      MagnitudeReadsBack(data, Parse(at, false, 0, false), n, ignore);
    }
    SkipsTo(data, pos, at, lookahead);
  }

  lemma MagnitudeReadsBack(data: seq<Byte>, p: Parse, n: nat, ignore: int)
    requires StandsAt(data, p.pos, ToText(n, 10)) && !IsDigit(ignore) && p.value == 0 && !p.overflow
    requires Ends(PeekAt(data, p.pos + |ToText(n, 10)|), ignore)
    ensures p.pos < |data| && IsDigit(data[p.pos])
    ensures Scan(data, p, ignore) == Parse(p.pos + |ToText(n, 10)|, p.negative, n, n + 48 > LONG_MAX)
  {
    var s := ToText(n, 10);
    PrintedDigits(n);
    hide ToText, Accumulate;
    assert data[p.pos + 0] == s[0] as int;
    hide Scan;
    ScanDigits(data, p, s, ignore);
  }

  lemma NegativeReadsBack(data: seq<Byte>, pos: nat, n: nat, ignore: int)
    requires StandsAt(data, pos, "-" + ToText(n, 10)) && !IsDigit(ignore) && ignore != MINUS
    requires Ends(PeekAt(data, pos + 1 + |ToText(n, 10)|), ignore)
    ensures pos < |data| && data[pos] == MINUS
    ensures Scan(data, Parse(pos, false, 0, false), ignore)
            == Parse(pos + 1 + |ToText(n, 10)|, true, n, n + 48 > LONG_MAX)
  {
    PrintedDigits(n);
    hide ToText, Accumulate;
    SignFirst(data, pos, ToText(n, 10), ignore);
    hide Scan, StandsAt;
    MagnitudeReadsBack(data, Parse(pos + 1, true, 0, false), n, ignore);
  }

  lemma SignAndMagnitude(n: Long)
    ensures SignedText(n, 10, TWO64) == if n < 0 then "-" + ToText(0 - n, 10) else ToText(n, 10)
  {
  }

  lemma SignFirst(data: seq<Byte>, pos: nat, s: string, ignore: int)
    requires s != "" && AllDigits(s) && StandsAt(data, pos, "-" + s) && ignore != MINUS
    ensures data[pos] == MINUS && StandsAt(data, pos + 1, s)
    ensures Scan(data, Parse(pos, false, 0, false), ignore) == Scan(data, Parse(pos + 1, true, 0, false), ignore)
  {
    var t := "-" + s;
    assert data[pos + 0] == t[0] as int;
    forall i | 0 <= i < |s| ensures data[pos + 1 + i] == s[i] as int {
      assert data[pos + (1 + i)] == t[1 + i] as int;
    }
    assert data[pos + 1 + 0] == s[0] as int;
  }
}
