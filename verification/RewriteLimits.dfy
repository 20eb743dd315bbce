/** What the growing branch of String::replace can be relied on for: when its result fits the buffer made
    for it, and when it is the leftmost rewrite. */
module RewriteLimits {
  import opened Common
  import opened Rewriting

  // ---------------------------------------------------------------- when it is another text

  /** Each replacement lengthens the text. */
  lemma {:induction false} GrowLengthens(t: string, f: string, r: string, from: int)
    requires 0 < |f| < |r|
    ensures |GrowFrom(t, f, r, from)| >= |t|
    ensures LastOccurrence(t, f, from) >= 0 ==> |GrowFrom(t, f, r, from)| >= |t| + |r| - |f|
    decreases from
  {
    var j := LastOccurrence(t, f, from);
    if j >= 0 {
      LastOccurrenceIsGreatest(t, f, from);
      GrowLengthens(t[..j] + r + t[j + |f|..], f, r, j - 1);
    }
  }

  /** A text shorter than two copies of `f` has room for one replacement only. */
  lemma {:induction false} AtMostOneReplacement(s: string, f: string, r: string, i: nat)
    requires 0 < |f| <= |r| && i <= |s|
    ensures |s| - i < |f| ==> ReplaceFrom(s, f, r, i) == s[i..]
    ensures |s| - i < 2 * |f| ==> |ReplaceFrom(s, f, r, i)| <= |s| - i + |r| - |f|
    decreases |s| - i
  {
    if i < |s| {
      AtMostOneReplacement(s, f, r, if OccursAt(s, f, i) then i + |f| else i + 1);
    }
  }

  lemma LastOccurrenceAtTheEnd(head: string, f: string)
    requires |f| > 0
    ensures LastOccurrence(head + f, f, |head + f| - 1) == |head|
  {
    var s := head + f;
    assert s[|head|..|head| + |f|] == f;
    LastFoundAt(s, f, |s| - 1, |head|);
  }

  lemma ReplacedAtTheEnd(head: string, f: string, r: string)
    ensures (head + f)[..|head|] + r + (head + f)[|head| + |f|..] == head + r
  {
    assert (head + f)[..|head|] == head && (head + f)[|head| + |f|..] == [];
  }

  /** First step of the growing branch on a text s that ends with `f`. */
  lemma GrowFirstStep(s: string, head: string, f: string, r: string, t: string)
    requires |f| > 0 && s == head + f && t == head + r
    ensures Grow(s, f, r) == GrowFrom(t, f, r, |head| - 1)
  {
    hide GrowFrom, LastOccurrence, OccursAt;
    LastOccurrenceAtTheEnd(head, f);
    ReplacedAtTheEnd(head, f, r);
    GrowStep(s, f, r, |s| - 1, |head|, t);
  }

  lemma GrowStep(s: string, f: string, r: string, from: int, j: nat, next: string)
    requires |f| > 0 && LastOccurrence(s, f, from) == j && next == s[..j] + r + s[j + |f|..]
    ensures GrowFrom(s, f, r, from) == GrowFrom(next, f, r, j - 1)
  {
  }

  /** A suffix of `f` of length k that starts `r` makes the branch rewrite text it has written. */
  lemma StraddleBreaksGrow(f: string, r: string, k: nat)
    requires 0 < |f| < |r| && 0 < k < |f| && f[|f| - k..] == r[..k]
    ensures |Grow(f[..|f| - k] + f, f, r)| > |ReplaceAll(f[..|f| - k] + f, f, r)|
  {
    hide *;
    StraddlingOccurrence(f, r, k);
    OccurrenceLeftOver(f[..|f| - k], f, r);
  }

  /** Replacing the `f` behind a short head leaves one more occurrence. */
  lemma OccurrenceLeftOver(head: string, f: string, r: string)
    requires 0 < |head| < |f| < |r| && OccursAt(head + r, f, 0)
    ensures |Grow(head + f, f, r)| > |ReplaceAll(head + f, f, r)|
  {
    hide GrowFrom, LastOccurrence, OccursAt, ReplaceFrom, ReplaceAll;
    GrowFirstStep(head + f, head, f, r, head + r);
    hide Grow;
    var t := head + r;
    assert |t| == |head| + |r|;
    OneReplacementOnly(head, f, r);
    LastOccurrenceIsGreatest(t, f, |head| - 1);
    GrowLengthens(t, f, r, |head| - 1);
  }

  lemma OneReplacementOnly(head: string, f: string, r: string)
    requires 0 < |f| <= |r| && |head| < |f|
    ensures |ReplaceAll(head + f, f, r)| <= |head + r|
  {
    hide ReplaceFrom;
    AtMostOneReplacement(head + f, f, r, 0);
  }

  lemma StraddlingOccurrence(f: string, r: string, k: nat)
    requires 0 < |f| < |r| && 0 < k < |f| && f[|f| - k..] == r[..k]
    ensures OccursAt(f[..|f| - k] + r, f, 0)
  {
    var head := f[..|f| - k];
    assert (head + r)[..|f|] == head + r[..k] == f;
  }

  /** A border of `f` makes the branch replace the other of two overlapping occurrences. */
  lemma BorderBreaksGrow(f: string, r: string, b: nat)
    requires 0 < |f| < |r| && 0 < b < |f| && f[..b] == f[|f| - b..]
    ensures Grow(f[..|f| - b] + f, f, r) != ReplaceAll(f[..|f| - b] + f, f, r)
  {
    var head := f[..|f| - b];
    GrowFirstStep(head + f, head, f, r, head + r);
    AtMostOneReplacement(head + f, f, r, 0);
    GrowsFurther(head + r, f, r, |head| - 1);
    BorderedStart(f, r, b);
    hide GrowFrom, ReplaceAll, OccursAt;
  }

  /** An occurrence at the start of the text will be replaced. */
  lemma GrowsFurther(t: string, f: string, r: string, from: nat)
    requires 0 < |f| < |r|
    ensures GrowFrom(t, f, r, from) == t || |GrowFrom(t, f, r, from)| >= |t| + |r| - |f|
    ensures OccursAt(t, f, 0) ==> GrowFrom(t, f, r, from) != t
  {
    hide OccursAt;
    LastOccurrenceIsGreatest(t, f, from);
    GrowLengthens(t, f, r, from);
  }

  /** The leftmost rewrite of the overlapping pair; were the branch to stop where it agrees with
      that, there would be an occurrence left. */
  lemma BorderedStart(f: string, r: string, b: nat)
    requires 0 < |f| < |r| && 0 < b < |f| && f[..b] == f[|f| - b..]
    ensures var head := f[..|f| - b];
            head + r == ReplaceAll(head + f, f, r) ==> OccursAt(head + r, f, 0)
  {
    var head := f[..|f| - b];
    var s, t := head + f, head + r;
    assert s[..|f|] == head + f[..b] == f;
    assert OccursAt(s, f, 0);
    AtMostOneReplacement(s, f, r, |f|);
    if t == r + s[|f|..] {
      PeriodicPrefix(f, r, b, |f|);
      assert t[..|f|] == head + r[..b];
    }
  }

  /** If shifting `r` by the period of `f` makes no difference, `r` starts like `f`. */
  lemma {:induction false} PeriodicPrefix(f: string, r: string, b: nat, n: nat)
    requires 0 < b < |f| < |r| && f[..b] == f[|f| - b..] && n <= |f|
    requires f[..|f| - b] + r == r + (f[..|f| - b] + f)[|f|..]
    ensures r[..n] == f[..n]
  {
    if n > 0 {
      PeriodicPrefix(f, r, b, n - 1);
      var p, i := |f| - b, n - 1;
      assert (f[..p] + r)[i] == (r + (f[..p] + f)[|f|..])[i] == r[i];
      if i >= p {
        assert r[i - p] == r[..n - 1][i - p] == f[..n - 1][i - p] == f[i - p];
        assert f[i - p] == f[..b][i - p] == f[p..][i - p];
      }
    }
  }

  // ---------------------------------------------------------------- when the result fits

  /** A rewrite that does not shorten leaves at least what it found. */
  lemma {:induction false} RewriteNotShorter(s: string, f: string, r: string, i: nat)
    requires 0 < |f| <= |r| && i <= |s|
    ensures |ReplaceFrom(s, f, r, i)| >= |s| - i
    decreases |s| - i
  {
    if i < |s| {
      RewriteNotShorter(s, f, r, if OccursAt(s, f, i) then i + |f| else i + 1);
    }
  }

  lemma RewriteLength(s: string, f: string, r: string, i: nat)
    requires 0 < |f| && i < |s|
    ensures OccursAt(s, f, i) ==> i + |f| <= |s| && |ReplaceFrom(s, f, r, i)| == |r| + |ReplaceFrom(s, f, r, i + |f|)|
    ensures !OccursAt(s, f, i) ==> |ReplaceFrom(s, f, r, i)| == 1 + |ReplaceFrom(s, f, r, i + 1)|
  {
  }

  /** The leftmost rewrite is a longest one: an occurrence set apart from a text u before it adds its
      whole growth to that of u. */
  lemma {:induction false} LeftmostIsLongest(s: string, u: string, f: string, r: string, i: nat)
    requires 0 < |f| < |r| && i <= |u| && |u| + |f| <= |s| && OccursAt(s, f, |u|)
    requires forall x :: 0 <= x && x + |f| <= |u| ==> (OccursAt(s, f, x) <==> OccursAt(u, f, x))
    ensures |ReplaceFrom(s, f, r, i)| >= |ReplaceFrom(u, f, r, i)| + |r| + |s| - |u| - |f|
    decreases |u| - i
  {
    if i == |u| {
      OccurrenceGrows(s, f, r, i);
    } else if i + |f| <= |u| {
      hide OccursAt, ReplaceFrom;
      RewriteLength(u, f, r, i);
      RewriteLength(s, f, r, i);
      LeftmostIsLongest(s, u, f, r, if OccursAt(u, f, i) then i + |f| else i + 1);
    } else if OccursAt(s, f, i) {
      OccurrenceGrows(s, f, r, i);
      hide ReplaceFrom, OccursAt;
      ShortTextIsCopied(u, f, r, i);
    } else {
      OccursOnlyInside(u, f, i);
      hide ReplaceFrom, OccursAt;
      RewriteLength(u, f, r, i);
      RewriteLength(s, f, r, i);
      LeftmostIsLongest(s, u, f, r, i + 1);
    }
  }

  lemma OccurrenceGrows(s: string, f: string, r: string, i: nat)
    requires 0 < |f| <= |r| && OccursAt(s, f, i)
    ensures |ReplaceFrom(s, f, r, i)| >= |r| + |s| - i - |f|
  {
    RewriteLength(s, f, r, i);
    RewriteNotShorter(s, f, r, i + |f|);
  }

  lemma {:induction false} ShortTextIsCopied(s: string, f: string, r: string, i: nat)
    requires 0 < |f| && i <= |s| < i + |f|
    ensures |ReplaceFrom(s, f, r, i)| == |s| - i
    decreases |s| - i
  {
    if i < |s| { ShortTextIsCopied(s, f, r, i + 1); }
  }

  lemma OccursOnlyInside(u: string, f: string, i: nat)
    requires i + |f| > |u|
    ensures !OccursAt(u, f, i)
  {
  }

  /** The text before an occurrence, on its own. */
  lemma BeforeOccurrence(h: string, f: string, j: nat)
    requires OccursAt(h, f, j)
    ensures forall x :: 0 <= x && x + |f| <= j ==> (OccursAt(h, f, x) <==> OccursAt(h[..j], f, x))
  {
    forall x | 0 <= x && x + |f| <= j ensures OccursAt(h, f, x) <==> OccursAt(h[..j], f, x) {
      assert h[x..x + |f|] == h[..j][x..x + |f|];
    }
  }

  lemma OccursInHeadOnly(h: string, z: string, f: string, r: string, x: nat)
    requires 0 < |f| < |r| && NoStraddle(f, r) && (z == [] || r <= z) && x < |h|
    ensures OccursAt(h + z, f, x) <==> OccursAt(h, f, x)
  {
    OccursInHead(h, z, f, x);
    if z != [] && |h| < x + |f| {
      assert z[..x + |f| - |h|] == r[..x + |f| - |h|];
    }
  }

  /** What follows a head and starts with the replacement adds no occurrence below it. */
  lemma LastOccurrenceInHead(h: string, z: string, f: string, r: string)
    requires 0 < |f| < |r| && NoStraddle(f, r) && (z == [] || r <= z)
    ensures LastOccurrence(h + z, f, |h| - 1) == LastOccurrence(h, f, |h| - 1)
  {
    hide OccursAt, NoStraddle;
    forall x | 0 <= x < |h| ensures OccursAt(h + z, f, x) <==> OccursAt(h, f, x) {
      OccursInHeadOnly(h, z, f, r, x);
    }
    LastOccurrenceIsGreatest(h, f, |h| - 1);
    LastOccurrenceIsGreatest(h + z, f, |h| - 1);
  }

  /** Right-to-left rewriting of a head makes it no longer than the leftmost rewrite does. */
  lemma {:induction false} GrowFromHeadFits(h: string, z: string, f: string, r: string)
    requires 0 < |f| < |r| && NoStraddle(f, r) && (z == [] || r <= z)
    ensures |GrowFrom(h + z, f, r, |h| - 1)| <= |z| + |ReplaceAll(h, f, r)|
    decreases |h|
  {
    hide NoStraddle, GrowFrom, LastOccurrence, ReplaceFrom, OccursAt;
    GrowUnfolds(h + z, f, r, |h| - 1);
    LastOccurrenceInHead(h, z, f, r);
    LastOccurrenceIsGreatest(h, f, |h| - 1);
    var j := LastOccurrence(h, f, |h| - 1);
    if j < 0 {
      RewriteNotShorter(h, f, r, 0);
    } else {
      var u, w := h[..j], h[j + |f|..];
      assert (h + z)[..j] == u && (h + z)[j + |f|..] == w + z;
      Assoc(u, r, w + z);
      GrowFromHeadFits(u, r + (w + z), f, r);
      BeforeOccurrence(h, f, j);
      LeftmostIsLongest(h, u, f, r, 0);
    }
  }

  ghost predicate FitsEveryText(f: string, r: string)
    requires |f| > 0
  {
    forall s :: |Grow(s, f, r)| <= |ReplaceAll(s, f, r)|
  }

  /** The growing branch fits the buffer sized for the leftmost rewrite, for every text, just when no
      proper suffix of `f` starts `r`. A border of `f` alone does no harm here. */
  lemma GrowFitsIff(f: string, r: string)
    requires 0 < |f| < |r|
    ensures FitsEveryText(f, r) <==> NoStraddle(f, r)
  {
    hide Grow, ReplaceAll, OccursAt;
    if NoStraddle(f, r) {
      forall s ensures |Grow(s, f, r)| <= |ReplaceAll(s, f, r)| {
        GrowFits(s, f, r);
      }
    } else {
      var k :| 0 < k < |f| && k <= |r| && f[|f| - k..] == r[..k];
      StraddleBreaksGrow(f, r, k);
    }
  }

  lemma GrowFits(s: string, f: string, r: string)
    requires 0 < |f| < |r| && NoStraddle(f, r)
    ensures |Grow(s, f, r)| <= |ReplaceAll(s, f, r)|
  {
    assert s + [] == s;
    GrowFromHeadFits(s, [], f, r);
  }

  ghost predicate RightForEveryText(f: string, r: string)
    requires |f| > 0
  {
    forall s :: Grow(s, f, r) == ReplaceAll(s, f, r)
  }

  /** The growing branch is right for every text just when `f` has neither border nor straddle. */
  lemma GrowIsReplaceAllIff(f: string, r: string)
    requires 0 < |f| < |r|
    ensures RightForEveryText(f, r) <==> Unbordered(f) && NoStraddle(f, r)
  {
    if Unbordered(f) && NoStraddle(f, r) {
      forall s ensures Grow(s, f, r) == ReplaceAll(s, f, r) {
        GrowMeetsReplaceAll(s, f, r);
      }
    } else if !Unbordered(f) {
      var b :| 0 < b < |f| && f[..b] == f[|f| - b..];
      BorderBreaksGrow(f, r, b);
    } else {
      var k :| 0 < k < |f| && k <= |r| && f[|f| - k..] == r[..k];
      StraddleBreaksGrow(f, r, k);
    }
  }
}
