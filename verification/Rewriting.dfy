/** What String::replace is meant to compute, and what its right-to-left branch does compute.

    `ReplaceAll` is the leftmost non-overlapping rewrite that the equal-length and shrinking
    branches perform and that the growing branch uses to size its buffer. `GrowFrom` is the
    right-to-left rewrite of the growing branch.
  */
module Rewriting {
  import opened Common

  predicate OccursAt(s: string, f: string, j: int) {
    0 <= j && j + |f| <= |s| && s[j..j + |f|] == f
  }

  /** Least position from i on where `f` occurs in `s`, or -1: the libc search. */
  function FindFrom(s: string, f: string, i: nat): (j: int)
    ensures j == -1 || i <= j <= |s| - |f|
    decreases |s| - i
  {
    if i + |f| > |s| then -1
    else if OccursAt(s, f, i) then i
    else FindFrom(s, f, i + 1)
  }

  lemma {:induction false} FindFromIsLeast(s: string, f: string, i: nat)
    ensures var j := FindFrom(s, f, i);
            && (j == -1 || OccursAt(s, f, j))
            && forall x :: i <= x && (j == -1 || x < j) ==> !OccursAt(s, f, x)
    decreases |s| - i
  {
    if i + |f| <= |s| && !OccursAt(s, f, i) {
      FindFromIsLeast(s, f, i + 1);
    }
  }

  /** The search depends on nothing before its starting point. */
  lemma {:induction false} FindFromInTail(s: string, m: string, f: string, i: nat)
    requires i <= |s| == |m| && s[i..] == m[i..]
    ensures FindFrom(s, f, i) == FindFrom(m, f, i)
    decreases |s| - i
  {
    if i + |f| <= |s| {
      assert s[i..i + |f|] == s[i..][..|f|] == m[i..][..|f|] == m[i..i + |f|];
      if !OccursAt(s, f, i) && i < |s| {
        assert s[i + 1..] == s[i..][1..] == m[i..][1..] == m[i + 1..];
        FindFromInTail(s, m, f, i + 1);
      }
    }
  }

  /** Greatest position not above `from` where `f` occurs in `s`, or -1. */
  function LastOccurrence(s: string, f: string, from: int): (j: int)
    ensures -1 <= j && (j >= 0 ==> j <= from && j + |f| <= |s|)
    decreases from
  {
    if from < 0 then -1
    else if OccursAt(s, f, from) then from
    else LastOccurrence(s, f, from - 1)
  }

  lemma {:induction false} LastOccurrenceIsGreatest(s: string, f: string, from: int)
    ensures var j := LastOccurrence(s, f, from);
            && (j >= 0 ==> OccursAt(s, f, j))
            && forall x :: j < x <= from ==> !OccursAt(s, f, x)
    decreases from
  {
    hide OccursAt;
    if from >= 0 && !OccursAt(s, f, from) {
      LastOccurrenceIsGreatest(s, f, from - 1);
    }
  }

  lemma LastOccurrenceSkips(s: string, f: string, a: int, b: int)
    requires -1 <= a <= b && forall x :: a < x <= b ==> !OccursAt(s, f, x)
    ensures LastOccurrence(s, f, b) == LastOccurrence(s, f, a)
  {
    hide OccursAt;
    LastOccurrenceIsGreatest(s, f, a);
    LastOccurrenceIsGreatest(s, f, b);
  }

  /** One round of the forward search for the last occurrence: all starts before p are dealt with
      and q is the next one. */
  lemma LastOccurrenceRound(s: string, f: string, p: nat, last: nat, q: int)
    requires p <= last && q == FindFrom(s, f, p)
    ensures q < 0 || q > last ==> LastOccurrence(s, f, last) == LastOccurrence(s, f, p - 1)
    ensures 0 <= q <= last ==> LastOccurrence(s, f, q) == q
  {
    FindFromIsLeast(s, f, p);
    hide OccursAt, FindFrom;
    if q < 0 || q > last {
      LastOccurrenceSkips(s, f, p - 1, last);
    }
  }

  lemma LastFoundAt(s: string, f: string, from: int, j: nat)
    requires j <= from && OccursAt(s, f, j) && forall x :: j < x <= from ==> !OccursAt(s, f, x)
    ensures LastOccurrence(s, f, from) == j
  {
    LastOccurrenceIsGreatest(s, f, from);
  }

  /** The leftmost non-overlapping rewrite of s[i..]. */
  function ReplaceFrom(s: string, f: string, r: string, i: nat): string
    requires |f| > 0 && i <= |s|
    decreases |s| - i
  {
    if i == |s| then []
    else if OccursAt(s, f, i) then r + ReplaceFrom(s, f, r, i + |f|)
    else [s[i]] + ReplaceFrom(s, f, r, i + 1)
  }

  function ReplaceAll(s: string, f: string, r: string): string
    requires |f| > 0
  {
    ReplaceFrom(s, f, r, 0)
  }

  lemma ReplaceAtOccurrence(s: string, f: string, r: string, j: int)
    requires |f| > 0 && OccursAt(s, f, j)
    ensures 0 <= j && j + |f| <= |s| && ReplaceFrom(s, f, r, j) == r + ReplaceFrom(s, f, r, j + |f|)
  {
  }

  /** Text without an occurrence start is copied. */
  lemma {:induction false} ReplaceSkips(s: string, f: string, r: string, a: nat, e: nat)
    requires |f| > 0 && a <= e <= |s|
    requires forall x :: a <= x < e ==> !OccursAt(s, f, x)
    ensures ReplaceFrom(s, f, r, a) == s[a..e] + ReplaceFrom(s, f, r, e)
    decreases e - a
  {
    if a < e {
      ReplaceSkips(s, f, r, a + 1, e);
      assert ReplaceFrom(s, f, r, a) == [s[a]] + ReplaceFrom(s, f, r, a + 1);
      hide *;
      Assoc([s[a]], s[a + 1..e], ReplaceFrom(s, f, r, e));
      assert s[a..e] == [s[a]] + s[a + 1..e];
    } else {
      assert s[a..e] == [];
    }
  }

  /** One round of the search loop, from i on. */
  lemma ReplaceRound(s: string, f: string, r: string, i: nat)
    requires |f| > 0 && i <= |s|
    ensures var j := FindFrom(s, f, i);
            ReplaceFrom(s, f, r, i) == if j < 0 then s[i..] else s[i..j] + (r + ReplaceFrom(s, f, r, j + |f|))
  {
    FindFromIsLeast(s, f, i);
    var j := FindFrom(s, f, i);
    ReplaceSkips(s, f, r, i, if j < 0 then |s| else j);
  }

  /** The leftmost rewrite has the characters of the text and of the replacement only. */
  lemma {:induction false} ReplaceKeepsOut(s: string, f: string, r: string, i: nat, c: char)
    requires |f| > 0 && i <= |s| && c !in s && c !in r
    ensures c !in ReplaceFrom(s, f, r, i)
    decreases |s| - i
  {
    if i < |s| {
      ReplaceKeepsOut(s, f, r, if OccursAt(s, f, i) then i + |f| else i + 1, c);
    }
  }

  /** A counting loop has reached i with `size` being the final length minus what is still to grow. */
  lemma RoundKeepsSize(s: string, f: string, r: string, i: nat, j: int)
    requires |f| > 0 && i <= |s| && j == FindFrom(s, f, i)
    ensures j < 0 ==> |ReplaceFrom(s, f, r, i)| == |s| - i
    ensures j >= 0 ==> |ReplaceFrom(s, f, r, i)| - (|s| - i)
                       == |r| - |f| + |ReplaceFrom(s, f, r, j + |f|)| - (|s| - (j + |f|))
  {
    ReplaceRound(s, f, r, i);
    hide *;
  }

  /** A left-to-right loop has produced `out` for s[..i]; the round at j keeps that so. */
  lemma RoundKeepsOutput(s: string, f: string, r: string, out: string, i: nat, j: int)
    requires |f| > 0 && i <= |s| && out + ReplaceFrom(s, f, r, i) == ReplaceAll(s, f, r)
    requires j == FindFrom(s, f, i)
    ensures j < 0 ==> out + s[i..] == ReplaceAll(s, f, r)
    ensures j >= 0 ==> out + s[i..j] + r + ReplaceFrom(s, f, r, j + |f|) == ReplaceAll(s, f, r)
  {
    ReplaceRound(s, f, r, i);
    hide *;
    if j >= 0 {
      Assoc(out, s[i..j], r + ReplaceFrom(s, f, r, j + |f|));
      Assoc(out + s[i..j], r, ReplaceFrom(s, f, r, j + |f|));
    }
  }

  /** The rewrite of the growing branch: the last occurrence starting at or before `from` is
      replaced, then the search goes on in the result from just before it. */
  function GrowFrom(t: string, f: string, r: string, from: int): string
    requires |f| > 0
    decreases from
  {
    var j := LastOccurrence(t, f, from);
    if j < 0 then t
    else GrowFrom(t[..j] + r + t[j + |f|..], f, r, j - 1)
  }

  lemma GrowUnfolds(t: string, f: string, r: string, from: int)
    requires |f| > 0
    ensures var j := LastOccurrence(t, f, from);
            GrowFrom(t, f, r, from) == if j < 0 then t else GrowFrom(t[..j] + r + t[j + |f|..], f, r, j - 1)
  {
  }

  /** A text without an occurrence is left alone by both rewrites. */
  lemma NoOccurrence(s: string, f: string, r: string)
    requires |f| > 0 && FindFrom(s, f, 0) < 0
    ensures Grow(s, f, r) == s == ReplaceAll(s, f, r)
  {
    ReplaceRound(s, f, r, 0);
    FindFromIsLeast(s, f, 0);
    hide OccursAt, FindFrom, ReplaceFrom;
    LastOccurrenceSkips(s, f, -1, |s| - 1);
  }

  function Grow(s: string, f: string, r: string): string
    requires |f| > 0
  {
    GrowFrom(s, f, r, |s| - 1)
  }

  // ---------------------------------------------------------------- when the two agree

  /** No proper non-empty prefix of `f` is also a suffix of it. */
  predicate Unbordered(f: string) {
    forall b :: 0 < b < |f| ==> f[..b] != f[|f| - b..]
  }

  /** No proper non-empty suffix of `f` starts `r`. */
  predicate NoStraddle(f: string, r: string) {
    forall k :: 0 < k < |f| && k <= |r| ==> f[|f| - k..] != r[..k]
  }

  /** Two overlapping occurrences make a border. */
  lemma OverlapIsBorder(s: string, f: string, x: int, e: int)
    requires OccursAt(s, f, x) && OccursAt(s, f, e) && x < e < x + |f|
    ensures f[..x + |f| - e] == f[e - x..]
  {
    assert f[..x + |f| - e] == s[e..e + |f|][..x + |f| - e] == s[e..x + |f|];
    assert f[e - x..] == s[x..x + |f|][e - x..] == s[e..x + |f|];
  }

  /** Occurrences of an unbordered text do not overlap. */
  lemma OccurrencesApart(s: string, f: string, x: int, e: int)
    requires Unbordered(f) && OccursAt(s, f, x) && OccursAt(s, f, e) && x < e
    ensures x + |f| <= e
  {
    if e < x + |f| {
      OverlapIsBorder(s, f, x, e);
    }
  }

  /** In head + z, below the start of z, `f` occurs where it did in head, unless it reaches into z. */
  lemma OccursInHead(head: string, z: string, f: string, x: int)
    requires 0 <= x < |head|
    ensures x + |f| <= |head| ==> (OccursAt(head + z, f, x) <==> OccursAt(head, f, x))
    ensures |head| < x + |f| && OccursAt(head + z, f, x) ==> f[|head| - x..] == z[..x + |f| - |head|]
  {
    var t := head + z;
    if x + |f| <= |head| {
      assert t[x..x + |f|] == head[x..x + |f|];
    } else if x + |f| <= |t| {
      assert t[x..x + |f|][|head| - x..] == z[..x + |f| - |head|];
    }
  }

  /** If the tail of `s` from e on is exchanged for a text z that is empty or starts with `r`, then
      `f` occurs below e where it did before. */
  lemma OccursBelow(s: string, f: string, r: string, z: string, e: nat, x: int)
    requires 0 < |f| < |r| && Unbordered(f) && NoStraddle(f, r)
    requires 0 <= x < e <= |s|
    requires if e == |s| then z == [] else OccursAt(s, f, e) && r <= z
    ensures OccursAt(s[..e] + z, f, x) <==> OccursAt(s, f, x)
  {
    OccursInHead(s[..e], z, f, x);
    OccursInHead(s[..e], s[e..], f, x);
    assert s[..e] + s[e..] == s;
    if e == |s| {
      assert s[..e] + z == s;
    } else if e < x + |f| {
      hide OccursAt;
      assert z[..x + |f| - e] == r[..x + |f| - e];
      if OccursAt(s, f, x) {
        OccurrencesApart(s, f, x, e);
      }
    }
  }

  /** The text when everything from e on has been rewritten, and e is where that part starts. */
  function Stage(s: string, f: string, r: string, e: nat): string
    requires |f| > 0 && e <= |s|
  {
    s[..e] + ReplaceFrom(s, f, r, e)
  }

  ghost predicate StartsPart(s: string, f: string, e: nat) {
    e == |s| || OccursAt(s, f, e)
  }

  /** The last occurrence below e is the same in the stage and in the original. */
  lemma LastOccurrenceInStage(s: string, f: string, r: string, e: nat)
    requires 0 < |f| < |r| && Unbordered(f) && NoStraddle(f, r)
    requires e <= |s| && StartsPart(s, f, e)
    ensures LastOccurrence(Stage(s, f, r, e), f, e - 1) == LastOccurrence(s, f, e - 1)
  {
    var z, t := ReplaceFrom(s, f, r, e), Stage(s, f, r, e);
    assert if e == |s| then z == [] else OccursAt(s, f, e) && r <= z;
    forall x | 0 <= x < e ensures OccursAt(t, f, x) <==> OccursAt(s, f, x) {
      hide OccursAt, Unbordered, NoStraddle, ReplaceFrom;
      OccursBelow(s, f, r, z, e, x);
    }
    hide OccursAt, Stage;
    LastOccurrenceIsGreatest(s, f, e - 1);
    LastOccurrenceIsGreatest(t, f, e - 1);
  }

  /** Without an occurrence below e the stage is the whole leftmost rewrite. */
  lemma LastStage(s: string, f: string, r: string, e: nat)
    requires |f| > 0 && e <= |s| && LastOccurrence(s, f, e - 1) < 0
    ensures Stage(s, f, r, e) == ReplaceAll(s, f, r)
  {
    hide OccursAt;
    LastOccurrenceIsGreatest(s, f, e - 1);
    ReplaceSkips(s, f, r, 0, e);
  }

  /** Replacing the last occurrence below e leads to the stage of that occurrence. */
  lemma OneStageDown(s: string, f: string, r: string, e: nat)
    requires |f| > 0 && Unbordered(f) && e <= |s| && StartsPart(s, f, e)
    requires LastOccurrence(s, f, e - 1) >= 0
    ensures var t, j := Stage(s, f, r, e), LastOccurrence(s, f, e - 1);
            StartsPart(s, f, j) && j + |f| <= |t| && t[..j] + r + t[j + |f|..] == Stage(s, f, r, j)
  {
    hide OccursAt, Unbordered, ReplaceFrom, LastOccurrence;
    var j := LastOccurrence(s, f, e - 1);
    LastOccurrenceIsGreatest(s, f, e - 1);
    ReplaceAtOccurrence(s, f, r, j);
    if e < |s| {
      OccurrencesApart(s, f, j, e);
    }
    ReplaceSkips(s, f, r, j + |f|, e);
    Splice(s, ReplaceFrom(s, f, r, e), r, e, j, j + |f|);
  }

  lemma Splice(s: string, z: string, r: string, e: nat, j: nat, k: nat)
    requires j <= k <= e <= |s|
    ensures var t := s[..e] + z; t[..j] + r + t[k..] == s[..j] + (r + (s[k..e] + z))
  {
    var t := s[..e] + z;
    assert t[k..] == s[k..e] + z;
    assert t[..j] == s[..j];
  }

  /** Right-to-left rewriting gives the leftmost rewrite, from any stage of it on. */
  lemma {:induction false} GrowFromStage(s: string, f: string, r: string, e: nat)
    requires 0 < |f| < |r| && Unbordered(f) && NoStraddle(f, r)
    requires e <= |s| && StartsPart(s, f, e)
    ensures GrowFrom(Stage(s, f, r, e), f, r, e - 1) == ReplaceAll(s, f, r)
    decreases e
  {
    hide Unbordered, NoStraddle, Stage, StartsPart, ReplaceAll, GrowFrom, LastOccurrence;
    GrowUnfolds(Stage(s, f, r, e), f, r, e - 1);
    LastOccurrenceInStage(s, f, r, e);
    if LastOccurrence(s, f, e - 1) < 0 {
      LastStage(s, f, r, e);
    } else {
      OneStageDown(s, f, r, e);
      GrowFromStage(s, f, r, LastOccurrence(s, f, e - 1));
    }
  }

  /** If `f` has no border and does not straddle into `r`, the growing branch computes the leftmost
      rewrite of every string. */
  lemma GrowMeetsReplaceAll(s: string, f: string, r: string)
    requires 0 < |f| < |r| && Unbordered(f) && NoStraddle(f, r)
    ensures Grow(s, f, r) == ReplaceAll(s, f, r)
  {
    assert Stage(s, f, r, |s|) == s;
    GrowFromStage(s, f, r, |s|);
  }
}
