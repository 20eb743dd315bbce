/** The one-pass multi-pattern search of class Stream: findMulti, find and findUntil.

    A target is a C string, so its elements are `char` values; the input is what read() delivers.
    Both are compared as `int` by the source and are `int` here.
  */
module StreamSearch {
  import opened ByteStream
  import opened Common

  type Text = seq<int>

  // ---------------------------------------------------------------- specification

  /** `t` is a suffix of `input`. */
  predicate EndsWith(input: Text, t: Text) {
    |t| <= |input| && input[|input| - |t|..] == t
  }

  /** Largest j not above k such that the first j elements of `t` end `input`. */
  function LongestUpTo(t: Text, input: Text, k: nat): (q: nat)
    requires k <= |t|
    ensures q <= k
  {
    if k == 0 || EndsWith(input, t[..k]) then k else LongestUpTo(t, input, k - 1)
  }

  /** Length of the longest proper prefix of `t` that is a suffix of `input`. */
  function Longest(t: Text, input: Text): (q: nat)
    requires |t| > 0
    ensures q < |t|
  {
    LongestUpTo(t, input, |t| - 1)
  }

  lemma {:induction false} LongestUpToIsMaximal(t: Text, input: Text, k: nat)
    requires k <= |t|
    ensures EndsWith(input, t[..LongestUpTo(t, input, k)])
    ensures forall j :: LongestUpTo(t, input, k) < j <= k ==> !EndsWith(input, t[..j])
  {
    if k > 0 && !EndsWith(input, t[..k]) {
      LongestUpToIsMaximal(t, input, k - 1);
    }
  }

  /** What `Longest` promises: it matches, and no longer proper prefix does. */
  lemma LongestIsMaximal(t: Text, input: Text)
    requires |t| > 0
    ensures EndsWith(input, t[..Longest(t, input)])
    ensures forall j :: Longest(t, input) < j < |t| ==> !EndsWith(input, t[..j])
  {
    LongestUpToIsMaximal(t, input, |t| - 1);
  }

  /** Conversely a proper match with no longer one is the longest. */
  lemma MaximalIsLongest(t: Text, input: Text, q: nat)
    requires q < |t| && EndsWith(input, t[..q])
    requires forall j :: q < j < |t| ==> !EndsWith(input, t[..j])
    ensures Longest(t, input) == q
  {
    LongestIsMaximal(t, input);
  }

  /** Some target ends `input`. */
  ghost predicate Hit(ts: seq<Text>, input: Text) {
    exists k :: 0 <= k < |ts| && EndsWith(input, ts[k])
  }

  /** No prefix of `input` shorter than n ends with a target. */
  ghost predicate NoHitBelow(ts: seq<Text>, input: Text, n: nat) {
    forall m :: 0 <= m < n && m <= |input| ==> !Hit(ts, input[..m])
  }

  /** No prefix of `input` ends with a target. */
  ghost predicate NoHit(ts: seq<Text>, input: Text) {
    NoHitBelow(ts, input, |input| + 1)
  }

  /** The shortest prefix of `input` that ends with any target has length m and ends with target
      k and with no lower-numbered one. */
  ghost predicate FirstHit(ts: seq<Text>, input: Text, m: nat, k: nat) {
    && m <= |input| && k < |ts|
    && EndsWith(input[..m], ts[k])
    && (forall j :: 0 <= j < k ==> !EndsWith(input[..m], ts[j]))
    && NoHitBelow(ts, input, m)
  }

  /** The first hit is unique and excludes an input without a hit, so the answer of the search is
      an if-and-only-if. */
  lemma FirstHitIsUnique(ts: seq<Text>, input: Text, m: nat, k: nat)
    requires FirstHit(ts, input, m, k)
    ensures !NoHit(ts, input)
    ensures forall m': nat, k': nat :: FirstHit(ts, input, m', k') ==> m' == m && k' == k
  {
  }

  // ---------------------------------------------------------------- border theory

  /** Extending the input by c: what ends the longer input is what ended the shorter one, plus c. */
  lemma EndsWithSnoc(input: Text, c: int, t: Text, k: nat)
    requires k < |t|
    ensures EndsWith(input + [c], t[..k + 1]) <==> EndsWith(input, t[..k]) && t[k] == c
  {
    var p, x := t[..k + 1], input + [c];
    assert p == t[..k] + [t[k]];
    if k <= |input| {
      assert x[|x| - (k + 1)..] == input[|input| - k..] + [c];
    }
  }

  /** Below the longest match q, ending the input is the same as ending the matched prefix: this is
      why comparing the target with itself is enough. */
  lemma BorderOfPrefix(input: Text, t: Text, q: nat, k: nat)
    requires k <= q <= |t| && EndsWith(input, t[..q])
    ensures EndsWith(input, t[..k]) <==> t[..k] == t[q - k..q]
  {
    assert input[|input| - k..] == input[|input| - q..][q - k..] == t[..q][q - k..] == t[q - k..q];
  }

  /** Result of the walk-back loop from index `i` (exclusive) down to 0. */
  function WalkFrom(t: Text, q: nat, c: int, i: nat): nat
    requires i <= q < |t|
  {
    if i == 0 then 0
    else if t[i - 1] == c && t[..i - 1] == t[q - (i - 1)..q] then i
    else WalkFrom(t, q, c, i - 1)
  }

  lemma NoMatchAtAll(t: Text, input: Text)
    requires |t| > 0 && forall j :: 0 < j < |t| ==> !EndsWith(input, t[..j])
    ensures Longest(t, input) == 0
  {
    LongestIsMaximal(t, input);
  }

  /** Walking back from a mismatch lands on the longest match of the longer input. */
  lemma {:induction false} WalkIsLongest(t: Text, input: Text, c: int, i: nat)
    requires |t| > 0 && i <= Longest(t, input) && t[Longest(t, input)] != c
    requires forall j :: i < j < |t| ==> !EndsWith(input + [c], t[..j])
    ensures WalkFrom(t, Longest(t, input), c, i) == Longest(t, input + [c])
  {
    hide EndsWith, Longest;
    var q := Longest(t, input);
    LongestIsMaximal(t, input);
    if i == 0 {
      NoMatchAtAll(t, input + [c]);
    } else {
      EndsWithSnoc(input, c, t, i - 1);
      BorderOfPrefix(input, t, q, i - 1);
      if EndsWith(input + [c], t[..i]) {
        MaximalIsLongest(t, input + [c], i);
      } else {
        WalkIsLongest(t, input, c, i - 1);
      }
    }
  }

  /** Nothing longer than the old match plus one can match. */
  lemma NoLongerMatch(t: Text, input: Text, c: int)
    requires |t| > 0
    ensures forall j :: Longest(t, input) + 1 < j < |t| ==> !EndsWith(input + [c], t[..j])
  {
    LongestIsMaximal(t, input);
    forall j | Longest(t, input) + 1 < j < |t|
      ensures !EndsWith(input + [c], t[..j])
    {
      EndsWithSnoc(input, c, t, j - 1);
    }
  }

  /** The transition computed for one target and one character. */
  function Next(t: Text, q: nat, c: int): nat
    requires q < |t|
  {
    if c == t[q] then q + 1 else WalkFrom(t, q, c, q)
  }

  /** The transition is exact: it reaches |t| just when the longer input ends with t, and is
      otherwise the longest proper match of the longer input. */
  lemma NextIsExact(t: Text, input: Text, c: int)
    requires |t| > 0
    ensures Next(t, Longest(t, input), c) == |t| <==> EndsWith(input + [c], t)
    ensures Next(t, Longest(t, input), c) != |t| ==> Next(t, Longest(t, input), c) == Longest(t, input + [c])
  {
    var q := Longest(t, input);
    LongestIsMaximal(t, input);
    assert t[..|t|] == t;
    EndsWithSnoc(input, c, t, |t| - 1);
    EndsWithSnoc(input, c, t, q);
    NoLongerMatch(t, input, c);
    if c != t[q] {
      WalkIsLongest(t, input, c, q);
      WalkBound(t, q, c, q);
    } else if q + 1 < |t| {
      MaximalIsLongest(t, input + [c], q + 1);
    }
  }

  lemma {:induction false} WalkBound(t: Text, q: nat, c: int, i: nat)
    requires i <= q < |t|
    ensures WalkFrom(t, q, c, i) <= i
  {
    if i > 0 { WalkBound(t, q, c, i - 1); }
  }

  // ---------------------------------------------------------------- the search

  /** Does the prefix of length n occur again, shifted by diff? */
  method PrefixRepeatsAt(str: Text, n: nat, diff: nat) returns (repeats: bool)
    requires n + diff <= |str|
    ensures repeats <==> str[..n] == str[diff..diff + n]
  {
    var i := 0;
    while i < n && str[i] == str[i + diff]
      invariant 0 <= i <= n
      invariant forall j :: 0 <= j < i ==> str[j] == str[j + diff]
    {
      i := i + 1;
    }
    if i < n {
      assert str[..n][i] != str[diff..diff + n][i];
    }
    repeats := i == n;
  }

  /** An element of the array of structures that the search works on. */
  datatype MultiTarget = MultiTarget(str: Text, index: nat)

  /** One character against one target: the new index. */
  method Accept(str: Text, index: nat, c: int) returns (next: nat)
    requires index < |str|
    ensures next == Next(str, index, c)
  {
    if c == str[index] { return index + 1; }
    if index == 0 { return 0; }
    next := index;
    while true
      invariant 0 < next <= index
      invariant WalkFrom(str, index, c, next) == WalkFrom(str, index, c, index)
      decreases next
    {
      next := next - 1;
      if c == str[next] {
        if next == 0 { return 1; }
        var repeats := PrefixRepeatsAt(str, next, index - next);
        if repeats { return next + 1; }
      }
      if next == 0 { return 0; }
    }
  }

  function Strings(targets: seq<MultiTarget>): (ts: seq<Text>)
    ensures |ts| == |targets|
    ensures forall j :: 0 <= j < |ts| ==> ts[j] == targets[j].str
  {
    seq(|targets|, j requires 0 <= j < |targets| => targets[j].str)
  }

  /** Every target is at its longest match of what has been read. */
  predicate InStep(targets: seq<MultiTarget>, input: Text) {
    forall j :: 0 <= j < |targets| ==>
      |targets[j].str| > 0 && targets[j].index == Longest(targets[j].str, input)
  }

  /** One character against every target in turn, stopping at the first complete one. */
  method FeedAll(targets: array<MultiTarget>, c: int, ghost input: Text) returns (r: int)
    requires InStep(targets[..], input)
    modifies targets
    ensures Strings(targets[..]) == old(Strings(targets[..])) && -1 <= r < targets.Length
    ensures r == -1 ==> InStep(targets[..], input + [c]) && !Hit(Strings(targets[..]), input + [c])
    ensures r >= 0 ==> EndsWith(input + [c], targets[r].str)
    ensures forall j :: 0 <= j < r ==> !EndsWith(input + [c], targets[j].str)
  {
    ghost var before := targets[..];
    var k := 0;
    while k < targets.Length
      invariant 0 <= k <= targets.Length
      invariant Strings(targets[..]) == Strings(before)
      invariant InStep(targets[..k], input + [c])
      invariant targets[k..] == before[k..]
      invariant forall j :: 0 <= j < k ==> !EndsWith(input + [c], before[j].str)
    {
      var t := targets[k];
      assert t == before[k];
      NextIsExact(t.str, input, c);
      var index := Accept(t.str, t.index, c);
      targets[k] := t.(index := index);
      if index == |t.str| { return k; }
      k := k + 1;
    }
    r := -1;
  }

  /** Before the first character, non-empty targets with index 0 are in step and none is complete. */
  lemma NothingReadYet(targets: seq<MultiTarget>, input: Text)
    requires forall j :: 0 <= j < |targets| ==> |targets[j].str| > 0 && targets[j].index == 0
    ensures InStep(targets, input[..0]) && NoHitBelow(Strings(targets), input, 1)
  {
    forall j | 0 <= j < |targets| ensures Longest(targets[j].str, input[..0]) == 0 {
      LongestIsMaximal(targets[j].str, input[..0]);
    }
  }

  /** What the search owes its caller about the input it started from. */
  ghost predicate Answer(ts: seq<Text>, input: Text, consumed: int, r: int) {
    if r == -1 then consumed == |input| && NoHit(ts, input)
    else 0 <= r && 0 <= consumed && FirstHit(ts, input, consumed, r)
  }

  /** An empty target is complete before anything is read. */
  lemma EmptyTargetHits(ts: seq<Text>, input: Text, k: nat)
    requires k < |ts| && ts[k] == [] && forall j :: 0 <= j < k ==> |ts[j]| > 0
    ensures Answer(ts, input, 0, k)
  {
  }

  /** One more character has been fed to targets that were all in step. */
  lemma AnswerAfterFeeding(ts: seq<Text>, input: Text, n: nat, r: int)
    requires n < |input| && NoHitBelow(ts, input, n + 1) && -1 <= r < |ts|
    requires r == -1 ==> !Hit(ts, input[..n] + [input[n]])
    requires r >= 0 ==> EndsWith(input[..n] + [input[n]], ts[r])
    requires forall j :: 0 <= j < r ==> !EndsWith(input[..n] + [input[n]], ts[j])
    ensures input[..n] + [input[n]] == input[..n + 1]
    ensures r == -1 ==> NoHitBelow(ts, input, n + 2)
    ensures r >= 0 ==> Answer(ts, input, n + 1, r)
  {
    assert input[..n] + [input[n]] == input[..n + 1];
  }

  /** Reads until a target is complete and returns its number, or -1 at the end of the input. */
  method FindMulti(stream: Stream, targets: array<MultiTarget>) returns (r: int)
    requires stream.Valid()
    requires forall j :: 0 <= j < targets.Length ==> targets[j].index == 0
    modifies stream, targets
    ensures stream.Valid() && old(stream.pos) <= stream.pos
    ensures Answer(old(Strings(targets[..])), stream.data[old(stream.pos)..], stream.pos - old(stream.pos), r)
  {
    hide EndsWith, Longest, Hit, NoHitBelow, FirstHit, InStep;
    ghost var ts, input := Strings(targets[..]), stream.data[stream.pos..];
    var k := 0;
    while k < targets.Length
      invariant 0 <= k <= targets.Length
      invariant forall j :: 0 <= j < k ==> |targets[j].str| > 0
    {
      if |targets[k].str| <= 0 {
        EmptyTargetHits(ts, input, k);
        return k;
      }
      k := k + 1;
    }
    NothingReadYet(targets[..], input);
    ghost var n := 0;
    while true
      invariant stream.Valid() && n == stream.pos - old(stream.pos) >= 0
      invariant Strings(targets[..]) == ts
      invariant InStep(targets[..], input[..n]) && NoHitBelow(ts, input, n + 1)
      decreases |input| - n
    {
      var c := stream.TimedRead();
      if c < 0 {
        return -1;
      }
      r := FeedAll(targets, c, input[..n]);
      AnswerAfterFeeding(ts, input, n, r);
      if r >= 0 {
        return;
      }
      n := n + 1;
    }
  }

  // ---------------------------------------------------------------- find and findUntil

  /** `t` ends somewhere in the input at or before position m. */
  ghost predicate EndsBy(input: Text, t: Text, m: int) {
    exists i :: 0 <= i <= m && i <= |input| && EndsWith(input[..i], t)
  }

  /** The target is completed, and no later than the terminator. */
  ghost predicate Reached(input: Text, target: Text, terminator: Option<Text>) {
    exists m :: 0 <= m <= |input| && EndsWith(input[..m], target) &&
      (terminator.Some? ==> !EndsBy(input, terminator.value, m - 1))
  }

  /** Number 0 wins just when the target is reached. */
  lemma FirstHitIsReached(input: Text, target: Text, terminator: Option<Text>, m: nat, k: nat)
    requires FirstHit(Targets(target, terminator), input, m, k)
    ensures k == 0 <==> Reached(input, target, terminator)
  {
    var ts := Targets(target, terminator);
    assert ts[0] == target;
    forall i, j | 0 <= i < m && 0 <= j < |ts| ensures !EndsWith(input[..i], ts[j]) {
      assert !Hit(ts, input[..i]);
    }
    assert EndsWith(input[..m], ts[k]);
    if k == 0 {
      assert terminator.Some? ==> ts[1] == terminator.value;
    } else {
      forall n | 0 <= n <= |input| && EndsWith(input[..n], target)
        ensures EndsBy(input, terminator.value, n - 1)
      {
        assert !EndsWith(input[..m], ts[0]);
      }
    }
  }

  function Targets(target: Text, terminator: Option<Text>): seq<Text> {
    if terminator == None then [target] else [target, terminator.value]
  }

  /** findUntil: reads until target or terminator (None when the caller passed a null pointer). */
  method FindUntil(stream: Stream, target: Text, terminator: Option<Text>) returns (found: bool)
    requires stream.Valid()
    modifies stream
    ensures stream.Valid() && old(stream.pos) <= stream.pos
    ensures found <==> Reached(stream.data[old(stream.pos)..], target, terminator)
  {
    ghost var input := stream.data[stream.pos..];
    var targets;
    if terminator == None {
      targets := new MultiTarget[] [MultiTarget(target, 0)];
    } else {
      targets := new MultiTarget[] [MultiTarget(target, 0), MultiTarget(terminator.value, 0)];
    }
    assert Strings(targets[..]) == Targets(target, terminator);
    var r := FindMulti(stream, targets);
    if r == -1 {
      forall m | 0 <= m <= |input| ensures !EndsWith(input[..m], target) {
        assert !Hit(Targets(target, terminator), input[..m]);
        assert Targets(target, terminator)[0] == target;
      }
    } else {
      FirstHitIsReached(input, target, terminator, stream.pos - old(stream.pos), r);
    }
    found := r == 0;
  }

  // ---------------------------------------------------------------- targets as stored bytes

  /** The value a byte has when it is kept in a `char`, on a platform whose `char` is signed. */
  function SignedChar(b: Byte): int {
    if b < 128 then b else b - 256
  }

  /** A target given as bytes, as the search sees it. */
  function Stored(t: seq<Byte>): (s: Text)
    ensures |s| == |t| && forall i :: 0 <= i < |t| ==> s[i] == SignedChar(t[i])
  {
    seq(|t|, i requires 0 <= i < |t| => SignedChar(t[i]))
  }

  predicate SevenBit(t: seq<Byte>) {
    forall i :: 0 <= i < |t| ==> t[i] < 128
  }

  /** A target holding a byte of 128 or more is stored with a negative number, which no delivered byte
      equals: it matches nowhere. */
  lemma HighByteNeverMatches(input: seq<Byte>, t: seq<Byte>)
    requires !SevenBit(t)
    ensures forall m :: 0 <= m <= |input| ==> !EndsWith(input[..m], Stored(t))
  {
    var k :| 0 <= k < |t| && t[k] >= 128;
    forall m | 0 <= m <= |input| ensures !EndsWith(input[..m], Stored(t)) {
      if |t| <= m {
        assert input[..m][m - |t|..][k] == input[m - |t| + k];
        assert Stored(t)[k] < 0;
      }
    }
  }

  /** A target is found by its bytes, in every input, just when all of them are below 128. */
  lemma FoundByItsBytesIff(t: seq<Byte>)
    ensures (forall input: seq<Byte> :: EndsWith(input, Stored(t)) <==> EndsWith(input, t)) <==> SevenBit(t)
  {
    if SevenBit(t) {
      assert Stored(t) == t;
    } else {
      HighByteNeverMatches(t, t);
      assert t[..|t|] == t && t[0..] == t;
      assert EndsWith(t, t) && !EndsWith(t, Stored(t));
    }
  }

  function StoredAll(ts: seq<seq<Byte>>): (ss: seq<Text>)
    ensures |ss| == |ts| && forall i :: 0 <= i < |ts| ==> ss[i] == Stored(ts[i])
  {
    seq(|ts|, i requires 0 <= i < |ts| => Stored(ts[i]))
  }

  function AsTexts(ts: seq<seq<Byte>>): (ss: seq<Text>)
    ensures |ss| == |ts| && forall i :: 0 <= i < |ts| ==> ss[i] == ts[i]
  {
    seq(|ts|, i requires 0 <= i < |ts| => ts[i])
  }

  /** So a search for targets of 7-bit characters answers as if the bytes were compared. */
  lemma SevenBitTargetsAreBytes(ts: seq<seq<Byte>>)
    requires forall i :: 0 <= i < |ts| ==> SevenBit(ts[i])
    ensures StoredAll(ts) == AsTexts(ts)
  {
    forall i | 0 <= i < |ts| ensures StoredAll(ts)[i] == AsTexts(ts)[i] {
      assert Stored(ts[i]) == ts[i];
    }
  }

  /** findMulti on targets given as bytes: the answer for the characters stored, and so for the bytes
      when they are all below 128. */
  method FindBytes(stream: Stream, ts: seq<seq<Byte>>) returns (r: int)
    requires stream.Valid()
    modifies stream
    ensures stream.Valid() && old(stream.pos) <= stream.pos
    ensures var input, n := stream.data[old(stream.pos)..], stream.pos - old(stream.pos);
            && Answer(StoredAll(ts), input, n, r)
            && ((forall i :: 0 <= i < |ts| ==> SevenBit(ts[i])) ==> Answer(AsTexts(ts), input, n, r))
  {
    hide Answer;
    var targets := new MultiTarget[|ts|](i requires 0 <= i < |ts| => MultiTarget(Stored(ts[i]), 0));
    assert Strings(targets[..]) == StoredAll(ts);
    r := FindMulti(stream, targets);
    if forall i :: 0 <= i < |ts| ==> SevenBit(ts[i]) {
      SevenBitTargetsAreBytes(ts);
    }
  }
}
