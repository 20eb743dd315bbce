/** Class String: a growable character buffer that keeps a terminating NUL.

    Allocation may fail at any call. Texts passed in are the contents of other, distinct strings.
    Copies between overlapping parts of the buffer are correct overlapping copies.
  */
module WString {
  import opened Common
  import opened Rewriting
  import opened RewriteLimits

  const NUL: char := '\0'

  ghost predicate NoNul(s: string) {
    forall i :: 0 <= i < |s| ==> s[i] != NUL
  }

  // ---------------------------------------------------------------- the C library

  /** Position of the first NUL from p on (the end of memory if there is none). */
  function NulAt(m: string, p: nat): (e: nat)
    requires p <= |m|
    ensures p <= e <= |m|
    decreases |m| - p
  {
    if p == |m| || m[p] == NUL then p else NulAt(m, p + 1)
  }

  /** strstr: first occurrence of f in the C string that starts at p, or -1. */
  function StrStr(m: string, p: nat, f: string): int
    requires p <= |m|
  {
    FindFrom(m[..NulAt(m, p)], f, p)
  }

  /** strrchr: last position of ch in the C string at 0, its NUL included, or -1. */
  function StrRChr(m: string, ch: char): int {
    LastChar(m, ch, NulAt(m, 0))
  }

  function LastChar(m: string, ch: char, from: int): (j: int)
    requires -1 <= from <= |m|
    ensures -1 <= j && (j >= 0 ==> j <= from && j < |m| && m[j] == ch)
    ensures forall x :: j < x <= from && x < |m| ==> m[x] != ch
    decreases from
  {
    if from < 0 then -1
    else if from < |m| && m[from] == ch then from
    else LastChar(m, ch, from - 1)
  }

  lemma {:induction false} NulAtIs(m: string, p: nat, e: nat)
    requires p <= e < |m| && m[e] == NUL && forall i :: p <= i < e ==> m[i] != NUL
    ensures NulAt(m, p) == e
    decreases e - p
  {
    if p < e { NulAtIs(m, p + 1, e); }
  }

  /** A search in memory whose tail from p on is that of the terminated text s. */
  lemma StrStrSeesTail(m: string, s: string, f: string, p: nat)
    requires p <= |s| < |m| && m[p..|s|] == s[p..] && m[|s|] == NUL && NoNul(s)
    ensures NulAt(m, p) == |s| && StrStr(m, p, f) == FindFrom(s, f, p)
  {
    forall i | p <= i < |s| ensures m[i] != NUL {
      assert m[i] == m[p..|s|][i - p] == s[i];
    }
    NulAtIs(m, p, |s|);
    assert m[..|s|][p..] == m[p..|s|];
    FindFromInTail(m[..|s|], s, f, p);
  }

  /** What overlapping memcpy(dst, src, n) makes of memory m. */
  function Moved(m: string, dst: nat, src: nat, n: nat): (m': string)
    requires dst + n <= |m| && src + n <= |m|
    ensures |m'| == |m|
  {
    m[..dst] + m[src..src + n] + m[dst + n..]
  }

  function Written(m: string, dst: nat, xs: string): (m': string)
    requires dst + |xs| <= |m|
    ensures |m'| == |m|
  {
    m[..dst] + xs + m[dst + |xs|..]
  }

  lemma MovedFront(m: string, dst: nat, src: nat, n: nat)
    requires dst + n <= |m| && src + n <= |m|
    ensures Moved(m, dst, src, n)[..dst + n] == m[..dst] + m[src..src + n]
  {
  }

  lemma NoNulWithout(s: string, index: nat, n: nat)
    requires index + n <= |s| && NoNul(s)
    ensures NoNul(s[..index] + s[index + n..])
  {
  }

  /** Memory m with its text of length len, after n characters at index have been moved over. */
  lemma RemovedText(m: string, len: nat, index: nat, n: nat)
    requires index + n <= len < |m| && NoNul(m[..len])
    ensures var m' := Moved(m, index, index + n, len - n - index)[len - n := NUL];
            m'[..len - n] == m[..len][..index] + m[..len][index + n..] && NoNul(m'[..len - n])
  {
    var m1 := Moved(m, index, index + n, len - n - index);
    MovedFront(m, index, index + n, len - n - index);
    hide Moved;
    assert m1[len - n := NUL][..len - n] == m1[..len - n];
    assert m[..index] == m[..len][..index] && m[index + n..len] == m[..len][index + n..];
    NoNulWithout(m[..len], index, n);
  }

  lemma MovedToItself(m: string, p: nat, n: nat)
    requires p + n <= |m|
    ensures Moved(m, p, p, n) == m
  {
  }

  /** memmove within one buffer. */
  method Move(a: array<char>, dst: nat, src: nat, n: nat)
    requires dst + n <= a.Length && src + n <= a.Length
    modifies a
    ensures a[..] == Moved(old(a[..]), dst, src, n)
  {
    forall i | 0 <= i < n {
      a[dst + i] := a[src + i];
    }
  }

  /** memcpy from elsewhere. */
  method Put(a: array<char>, dst: nat, xs: string)
    requires dst + |xs| <= a.Length
    modifies a
    ensures a[..] == Written(old(a[..]), dst, xs)
  {
    forall i | 0 <= i < |xs| {
      a[dst + i] := xs[i];
    }
  }

  // ---------------------------------------------------------------- the class

  predicate IsSpace(c: char) {
    c == ' ' || '\t' <= c <= '\r'
  }

  /** `s` without the `count` characters at `index`, or as many as there are. */
  function Without(s: string, index: nat, count: nat): string {
    if index >= |s| then s
    else if count > |s| - index then s[..index]
    else s[..index] + s[index + count..]
  }

  /** White space is tab, line feed, vertical tab, form feed, carriage return and space, by their codes. */
  lemma SpaceIs(c: char)
    ensures IsSpace(c) <==> c as int in {9, 10, 11, 12, 13, 32}
  {
  }

  /** What is left, character by character: those before the index, then those behind the ones removed. */
  lemma WithoutAt(s: string, index: nat, count: nat, i: nat)
    ensures var n := if index >= |s| then 0 else if count > |s| - index then |s| - index else count;
            var t := Without(s, index, count);
            |t| == |s| - n && (i < |t| ==> t[i] == if i < index then s[i] else s[i + n])
  {
  }

  /** `s` without the white space at either end. */
  ghost predicate IsTrimOf(t: string, s: string) {
    exists a: string, z: string ::
      && s == a + t + z
      && (forall c :: c in a || c in z ==> IsSpace(c))
      && (t != "" ==> !IsSpace(t[0]) && !IsSpace(t[|t| - 1]))
  }

  lemma TrimSplits(s: string, begin: nat, end: nat)
    requires begin <= end <= |s|
    requires forall i :: 0 <= i < begin || end <= i < |s| ==> IsSpace(s[i])
    requires begin < end ==> !IsSpace(s[begin]) && !IsSpace(s[end - 1])
    ensures IsTrimOf(s[begin..end], s)
  {
    assert s == s[..begin] + s[begin..end] + s[end..];
    assert forall c :: c in s[..begin] || c in s[end..] ==> IsSpace(c);
  }

  /** Memory m holds w characters of the leftmost rewrite of s and, from i on, the rest of s: the
      write cursor is not past the read cursor and what has not been read is untouched. */
  ghost predicate InProgress(m: string, s: string, f: string, r: string, w: nat, i: nat)
    requires |f| > 0
  {
    && w <= i <= |s| < |m| && m[|s|] == NUL && m[i..|s|] == s[i..] && NoNul(s) && NoNul(r)
    && m[..w] + ReplaceFrom(s, f, r, i) == ReplaceAll(s, f, r)
  }

  lemma RewriteStarts(m: string, s: string, f: string, r: string)
    requires 0 < |f| && |s| < |m| && m[..|s|] == s && m[|s|] == NUL && NoNul(s) && NoNul(r)
    ensures InProgress(m, s, f, r, 0, 0)
  {
    assert m[0..|s|] == s[0..];
  }

  /** One round at the next occurrence j: what precedes it is copied to the output, then `r`. */
  lemma RewriteRound(m: string, s: string, f: string, r: string, w: nat, i: nat)
    requires 0 < |f| && |r| <= |f| && InProgress(m, s, f, r, w, i) && i <= |m| && StrStr(m, i, f) >= 0
    ensures var j := StrStr(m, i, f);
            && w <= i <= j && j + |f| <= |s| < |m|
            && InProgress(Written(Moved(m, w, i, j - i), w + (j - i), r), s, f, r, w + (j - i) + |r|, j + |f|)
  {
    hide NoNul, ReplaceFrom, ReplaceAll, FindFrom, Moved, Written;
    StrStrSeesTail(m, s, f, i);
    hide StrStr;
    var j := StrStr(m, i, f);
    RoundKeepsOutput(s, f, r, m[..w], i, j);
    var m1 := Moved(m, w, i, j - i);
    OutputGrows(m, m1, Written(m1, w + (j - i), r), s, r, w, i, j, j + |f|);
  }

  lemma OutputGrows(m: string, m1: string, m2: string, s: string, r: string, w: nat, i: nat, j: nat, k: nat)
    requires w <= i <= j <= k <= |s| < |m| && m[i..|s|] == s[i..] && |r| <= k - j
    requires m1 == Moved(m, w, i, j - i)
    requires m2 == Written(m1, w + (j - i), r)
    ensures |m2| == |m| && m2[|s|] == m[|s|] && m2[k..|s|] == s[k..]
    ensures m2[..w + (j - i) + |r|] == m[..w] + s[i..j] + r
  {
    assert m[i..j] == m[i..|s|][..j - i];
    assert s[i..j] == s[i..][..j - i];
    assert m1[k..] == m[k..];
    assert m2[k..] == m1[k..];
    assert m2[k..|s|] == m[k..|s|] == m[i..|s|][k - i..];
  }

  /** No occurrence is left: the rest of s, its NUL included, completes the output. */
  lemma RewriteEnds(m: string, s: string, f: string, r: string, w: nat, i: nat)
    requires 0 < |f| && InProgress(m, s, f, r, w, i) && i <= |m| && StrStr(m, i, f) < 0
    ensures w <= i <= |s| < |m| && NulAt(m, i) == |s|
    ensures var m' := Moved(m, w, i, |s| + 1 - i);
            var n := w + (|s| - i);
            m'[..n] == ReplaceAll(s, f, r) && m'[n] == NUL && NoNul(m'[..n])
  {
    StrStrSeesTail(m, s, f, i);
    RoundKeepsOutput(s, f, r, m[..w], i, -1);
    RewriteHasNoNul(s, f, r);
    hide StrStr, NoNul, ReplaceFrom, ReplaceAll;
    RestMoved(m, w, i, |s|);
  }

  /** The rest of a text of length e, with its NUL, moved down from i to w. */
  lemma RestMoved(m: string, w: nat, i: nat, e: nat)
    requires w <= i <= e < |m|
    ensures var m' := Moved(m, w, i, e + 1 - i);
            m'[..w + (e - i)] == m[..w] + m[i..e] && m'[w + (e - i)] == m[e]
  {
    var m' := Moved(m, w, i, e + 1 - i);
    assert m' == m[..w] + m[i..e + 1] + m[w + (e + 1 - i)..];
    assert m[i..e + 1] == m[i..e] + [m[e]];
  }

  /** A leftmost rewrite of NUL-free text with NUL-free text is NUL-free. */
  lemma RewriteHasNoNul(s: string, f: string, r: string)
    requires |f| > 0 && NoNul(s) && NoNul(r)
    ensures NoNul(ReplaceAll(s, f, r))
  {
    ReplaceKeepsOut(s, f, r, 0, NUL);
  }

  /** memmove, NUL and memcpy of one replacement at j in the text m[..len]. */
  lemma Expansion(m: string, len: nat, j: nat, f: string, r: string)
    requires |f| <= |r| && j + |f| <= len && len + (|r| - |f|) < |m| && NoNul(m[..len]) && NoNul(r)
    ensures var d := |r| - |f|;
            var m1 := Moved(m, j + |f| + d, j + |f|, len - (j + |f|));
            var m2 := Written(m1[len + d := NUL], j, r);
            m2[..len + d] == m[..len][..j] + r + m[..len][j + |f|..] && m2[len + d] == NUL && NoNul(m2[..len + d])
  {
    var d := |r| - |f|;
    var m1 := Moved(m, j + |f| + d, j + |f|, len - (j + |f|));
    var m2 := Written(m1[len + d := NUL], j, r);
    var a := j + |f|;
    assert m1[a + d..len + d] == m[a..len];
    assert m2[..j] == m[..j] && m2[j..j + |r|] == r && m2[a + d..len + d] == m[a..len];
    assert m2[..len + d] == m2[..j] + m2[j..j + |r|] + m2[j + |r|..len + d];
    assert m[..len][j + |f|..] == m[a..len];
  }

  /** strrchr in memory cut off at e. */
  lemma LastCharBefore(m: string, cut: string, e: nat, ch: char)
    requires e < |m| && NoNul(m[..e]) && cut == m[e := NUL]
    ensures var r := StrRChr(cut, ch);
            if ch == NUL then r == e
            else -1 <= r < e && (r >= 0 ==> m[r] == ch) && forall i :: r < i < e ==> m[i] != ch
  {
    assert forall i :: 0 <= i < e ==> cut[i] == m[..e][i];
    NulAtIs(cut, 0, e);
  }

  /** The rewriting of s has come to t with an occurrence at j whose replacement does not fit. */
  lemma GrowOutgrows(s: string, t: string, f: string, r: string, j: nat, size: nat, capacity: nat)
    requires 0 < |f| < |r| && j + |f| <= |t| && size == |ReplaceAll(s, f, r)| <= capacity < |t| + |r| - |f|
    requires GrowFrom(t[..j] + r + t[j + |f|..], f, r, j - 1) == Grow(s, f, r)
    ensures capacity < |Grow(s, f, r)| && !NoStraddle(f, r)
  {
    hide ReplaceFrom, GrowFrom, NoStraddle;
    GrowLengthens(t[..j] + r + t[j + |f|..], f, r, j - 1);
    if NoStraddle(f, r) {
      GrowFits(s, f, r);
    }
  }

  datatype Outcome = Done | NoMemory | Overrun

  class String {
    var buffer: array?<char>
    var capacity: nat
    var len: nat

    ghost predicate Valid()
      reads this, buffer
    {
      if buffer == null then capacity == 0 && len == 0
      else buffer.Length == capacity + 1 && len <= capacity && buffer[len] == NUL && NoNul(buffer[..len])
    }

    ghost function Text(): string
      requires Valid()
      reads this, buffer
    {
      if buffer == null then "" else buffer[..len]
    }

    constructor ()
      ensures Valid() && Text() == "" && buffer == null
    {
      buffer, capacity, len := null, 0, 0;
    }

    /** realloc: fails and changes nothing, or keeps the old contents at the front. */
    method ChangeBuffer(maxStrLen: nat) returns (ok: bool)
      requires Valid() && capacity <= maxStrLen
      modifies this
      ensures !ok ==> unchanged(this)
      ensures ok ==> buffer != null && fresh(buffer) && buffer.Length == maxStrLen + 1
      ensures ok ==> capacity == maxStrLen && len == old(len)
      ensures ok && old(buffer) != null ==> buffer[..old(buffer.Length)] == old(buffer[..])
    {
      ok := *;
      if ok {
        var grown := new char[maxStrLen + 1];
        if buffer != null {
          var previous := buffer;
          forall i | 0 <= i < previous.Length {
            grown[i] := previous[i];
          }
          assert grown[..previous.Length] == previous[..];
        }
        buffer, capacity := grown, maxStrLen;
      }
    }

    method Reserve(size: nat) returns (ok: bool)
      requires Valid()
      modifies this
      ensures Valid() && Text() == old(Text())
      ensures ok ==> buffer != null && capacity >= size && (buffer == old(buffer) || fresh(buffer))
      ensures !ok ==> unchanged(this)
      ensures old(buffer) != null && old(capacity) >= size ==> ok && unchanged(this)
    {
      if buffer != null && capacity >= size { return true; }
      ok := ChangeBuffer(size);
      if ok {
        if len == 0 {
          buffer[0] := NUL;
        }
        assert buffer[..len] == old(Text());
      }
    }

    /** After this the text is `cstr`, or the string is invalid (and empty) for want of memory. */
    method Copy(cstr: string)
      requires Valid() && NoNul(cstr)
      modifies this, buffer
      ensures Valid() && (buffer == null || Text() == cstr)
      ensures buffer == null || buffer == old(buffer) || fresh(buffer)
      ensures old(buffer) != null && old(capacity) >= |cstr| ==> buffer == old(buffer)
    {
      var ok := Reserve(|cstr|);
      if !ok {
        buffer, capacity, len := null, 0, 0;
        return;
      }
      len := |cstr|;
      Put(buffer, 0, cstr);
      buffer[len] := NUL;
      assert buffer[..len] == cstr;
    }

    /** Appends; a null argument or a failed allocation leaves the text as it was. */
    method Concat(cstr: Option<string>) returns (ok: bool)
      requires Valid() && (cstr.Some? ==> NoNul(cstr.value))
      modifies this, buffer
      ensures Valid() && (buffer == old(buffer) || fresh(buffer))
      ensures ok ==> cstr.Some? && Text() == old(Text()) + cstr.value
      ensures !ok ==> Text() == old(Text())
      ensures cstr == None ==> !ok
      ensures cstr.Some? && cstr.value == "" ==> ok
      ensures cstr.Some? && old(buffer) != null && old(len) + |cstr.value| <= old(capacity) ==> ok
    {
      if cstr == None { return false; }
      if cstr.value == "" { return true; }
      ok := Reserve(len + |cstr.value|);
      if !ok { return; }
      Put(buffer, len, cstr.value);
      len := len + |cstr.value|;
      buffer[len] := NUL;
      assert buffer[..len] == old(Text()) + cstr.value;
    }

    /** Searches backwards from fromIndex by ending the string there for the time of the search. */
    method LastIndexOfChar(ch: char, fromIndex: nat) returns (r: int)
      requires Valid()
      modifies buffer
      ensures Valid() && (buffer != null ==> buffer[..] == old(buffer[..]))
      ensures fromIndex >= len ==> r == -1
      ensures fromIndex < len && ch != NUL ==>
                -1 <= r <= fromIndex && (r >= 0 ==> Text()[r] == ch)
                && (forall i :: r < i <= fromIndex ==> Text()[i] != ch)
      ensures fromIndex < len && ch == NUL ==> r == fromIndex + 1
    {
      if fromIndex >= len { return -1; }
      ghost var m := buffer[..];
      var tempchar := buffer[fromIndex + 1];
      buffer[fromIndex + 1] := NUL;
      LastCharBefore(m, buffer[..], fromIndex + 1, ch);
      r := StrRChr(buffer[..], ch);
      buffer[fromIndex + 1] := tempchar;
      assert buffer[..] == m;
    }

    /** strstr on the buffer. */
    method FindText(f: string, p: nat) returns (q: int)
      requires Valid() && buffer != null && p <= len
      ensures q == FindFrom(Text(), f, p)
    {
      StrStrSeesTail(buffer[..], Text(), f, p);
      q := StrStr(buffer[..], p, f);
    }

    /** The greatest position not above fromIndex where s2 occurs, overlapping occurrences included. */
    method LastIndexOf(s2: string, fromIndex: nat) returns (found: int)
      requires Valid()
      ensures found == if s2 == "" || len == 0 || |s2| > len then -1
                       else LastOccurrence(Text(), s2, if fromIndex >= len then len - 1 else fromIndex)
    {
      if s2 == "" || len == 0 || |s2| > len { return -1; }
      var last := if fromIndex >= len then len - 1 else fromIndex;
      found := -1;
      var p := 0;
      while p <= last
        invariant 0 <= p <= len
        invariant found == LastOccurrence(Text(), s2, if p - 1 < last then p - 1 else last)
      {
        hide LastOccurrence;
        var q := FindText(s2, p);
        LastOccurrenceRound(Text(), s2, p, last, q);
        if q < 0 { return; }
        if q <= last {
          found := q;
        }
        p := q + 1;
      }
    }

    /** Reads the C string at lo while the buffer is cut off at hi; the cut is undone. */
    method CutOut(lo: nat, hi: nat) returns (part: string)
      requires Valid() && lo <= hi <= len && buffer != null
      modifies buffer
      ensures buffer[..] == old(buffer[..]) && Valid()
      ensures part == Text()[lo..hi] && NoNul(part)
    {
      var temp := buffer[hi];
      buffer[hi] := NUL;
      assert forall i :: lo <= i < hi ==> buffer[i] == old(buffer[..len])[i];
      NulAtIs(buffer[..], lo, hi);
      part := buffer[lo..NulAt(buffer[..], lo)];
      buffer[hi] := temp;
      assert buffer[..] == old(buffer[..]);
    }

    /** The part between two positions, given in either order, as a new string. */
    method Substring(left: nat, right: nat) returns (out: String)
      requires Valid()
      modifies buffer
      ensures Valid() && (buffer != null ==> buffer[..] == old(buffer[..]))
      ensures fresh(out) && out.Valid() && (out.buffer != null ==> fresh(out.buffer))
      ensures var lo, hi := if left > right then right else left, if left > right then left else right;
              out.buffer == null || out.Text() == if lo >= len then "" else Text()[lo..if hi > len then len else hi]
    {
      var lo, hi := left, right;
      if lo > hi {
        lo, hi := hi, lo;
      }
      out := new String();
      out.Copy("");
      if lo >= len { return; }
      if hi > len {
        hi := len;
      }
      var part := CutOut(lo, hi);
      out.Copy(part);
    }

    method RemoveSpan(index: nat, n: nat)
      requires Valid() && buffer != null && index + n <= len
      modifies this`len, buffer
      ensures Valid() && Text() == old(Text())[..index] + old(Text())[index + n..]
    {
      hide Moved, NoNul;
      RemovedText(buffer[..], len, index, n);
      len := len - n;
      Move(buffer, index, index + n, len - index);
      ghost var moved := buffer[..];
      buffer[len] := NUL;
      assert buffer[..] == moved[len := NUL];
      assert buffer[..len] == buffer[..][..len];
    }

    /** Removes up to `count` characters at `index`. */
    method Remove(index: nat, count: nat)
      requires Valid()
      modifies this`len, buffer
      ensures Valid() && Text() == Without(old(Text()), index, count)
    {
      if index >= len { return; }
      if count <= 0 {
        assert Without(Text(), index, count) == Text();
        return;
      }
      var n := if count > len - index then len - index else count;
      assert Text()[..index] + Text()[index + n..] == Without(Text(), index, count);
      RemoveSpan(index, n);
    }

    /** Where the text without the white space at both ends begins and ends. */
    method TrimBounds() returns (begin: nat, end: nat)
      requires Valid() && buffer != null && len > 0
      ensures begin <= end <= len
      ensures forall i :: 0 <= i < begin || end <= i < len ==> IsSpace(buffer[i])
      ensures begin < end ==> !IsSpace(buffer[begin]) && !IsSpace(buffer[end - 1])
    {
      begin := 0;
      while IsSpace(buffer[begin])
        invariant begin <= len
        invariant forall i :: 0 <= i < begin ==> IsSpace(buffer[i])
        decreases len - begin
      {
        begin := begin + 1;
      }
      end := len;
      while IsSpace(buffer[end - 1]) && end - 1 >= begin
        invariant begin <= end <= len && 0 < end
        invariant forall i :: end <= i < len ==> IsSpace(buffer[i])
      {
        end := end - 1;
      }
    }

    method KeepPart(begin: nat, end: nat)
      requires Valid() && buffer != null && begin <= end <= len
      modifies this`len, buffer
      ensures Valid() && Text() == old(Text())[begin..end]
    {
      len := end - begin;
      if begin > 0 {
        Move(buffer, 0, begin, len);
      }
      buffer[len] := NUL;
      assert buffer[..len] == old(Text())[begin..end];
    }

    /** Drops the white space at both ends. */
    method Trim()
      requires Valid()
      modifies this`len, buffer
      ensures Valid() && IsTrimOf(Text(), old(Text()))
    {
      ghost var s := Text();
      if buffer == null || len == 0 {
        TrimSplits("", 0, 0);
        return;
      }
      var begin, end := TrimBounds();
      TrimSplits(s, begin, end);
      KeepPart(begin, end);
    }

    // -------------------------------------------------------------- replace

    /** Equal lengths: each occurrence is overwritten where it is found. */
    method ReplaceEqual(find: string, rep: string)
      requires Valid() && buffer != null && 0 < |find| == |rep| && NoNul(rep)
      modifies buffer
      ensures Valid() && Text() == ReplaceAll(old(Text()), find, rep)
    {
      hide ReplaceAll, InProgress, StrStr, NoNul;
      ghost var s := Text();
      var readFrom := 0;
      RewriteStarts(buffer[..], s, find, rep);
      var foundAt := StrStr(buffer[..], readFrom, find);
      while foundAt >= 0
        invariant readFrom <= buffer.Length && foundAt == StrStr(buffer[..], readFrom, find)
        invariant InProgress(buffer[..], s, find, rep, readFrom, readFrom)
        decreases buffer.Length - readFrom
      {
        RewriteRound(buffer[..], s, find, rep, readFrom, readFrom);
        MovedToItself(buffer[..], readFrom, foundAt - readFrom);
        Put(buffer, foundAt, rep);
        readFrom := foundAt + |rep|;
        foundAt := StrStr(buffer[..], readFrom, find);
      }
      RewriteEnds(buffer[..], s, find, rep, readFrom, readFrom);
      MovedToItself(buffer[..], readFrom, |s| + 1 - readFrom);
      assert buffer[..len] == buffer[..][..len];
    }

    /** Shorter replacement: the text is compacted from left to right. */
    method ReplaceShrinking(find: string, rep: string)
      requires Valid() && buffer != null && |rep| < |find| && NoNul(rep)
      modifies this`len, buffer
      ensures Valid() && Text() == ReplaceAll(old(Text()), find, rep)
    {
      hide ReplaceAll, InProgress, StrStr, NoNul, Moved, Written;
      ghost var s := Text();
      var readFrom: nat, writeTo: nat := 0, 0;
      RewriteStarts(buffer[..], s, find, rep);
      var foundAt := StrStr(buffer[..], readFrom, find);
      while foundAt >= 0
        invariant writeTo <= readFrom <= buffer.Length && len == |s| - (readFrom - writeTo)
        invariant foundAt == StrStr(buffer[..], readFrom, find)
        invariant InProgress(buffer[..], s, find, rep, writeTo, readFrom)
        decreases buffer.Length - readFrom
      {
        RewriteRound(buffer[..], s, find, rep, writeTo, readFrom);
        var n := foundAt - readFrom;
        Move(buffer, writeTo, readFrom, n);
        writeTo := writeTo + n;
        Put(buffer, writeTo, rep);
        writeTo := writeTo + |rep|;
        readFrom := foundAt + |find|;
        len := |rep| + len - |find|;
        foundAt := StrStr(buffer[..], readFrom, find);
      }
      RewriteEnds(buffer[..], s, find, rep, writeTo, readFrom);
      Move(buffer, writeTo, readFrom, NulAt(buffer[..], readFrom) + 1 - readFrom);
      assert buffer[..len] == buffer[..][..len];
    }

    /** The length of the leftmost rewrite. */
    method SizeNeeded(find: string, rep: string) returns (size: nat)
      requires Valid() && buffer != null && 0 < |find| < |rep|
      ensures size == |ReplaceAll(Text(), find, rep)|
      ensures size == len ==> FindFrom(Text(), find, 0) < 0
    {
      hide ReplaceFrom, FindFrom;
      size := len;
      var readFrom := 0;
      var foundAt := FindText(find, 0);
      while foundAt >= 0
        invariant 0 <= readFrom <= len && foundAt == FindFrom(Text(), find, readFrom)
        invariant |ReplaceFrom(Text(), find, rep, 0)| == size
                + |ReplaceFrom(Text(), find, rep, readFrom)| - (len - readFrom)
        invariant size >= len && (size == len ==> readFrom == 0)
        decreases len - readFrom
      {
        RoundKeepsSize(Text(), find, rep, readFrom, foundAt);
        readFrom := foundAt + |find|;
        size := size + (|rep| - |find|);
        foundAt := FindText(find, readFrom);
      }
      RoundKeepsSize(Text(), find, rep, readFrom, foundAt);
    }

    /** Replaces the one occurrence at j by moving up what follows it. */
    method ExpandAt(j: nat, find: string, rep: string)
      requires Valid() && buffer != null && |find| <= |rep| && NoNul(rep) && j + |find| <= len
      requires len + |rep| - |find| <= capacity
      modifies this`len, buffer
      ensures Valid()
      ensures Text() == old(Text())[..j] + rep + old(Text())[j + |find|..]
    {
      hide Moved, Written, NoNul;
      var diff, readFrom := |rep| - |find|, j + |find|;
      ghost var m1 := Moved(buffer[..], readFrom + diff, readFrom, len - readFrom);
      Expansion(buffer[..], len, j, find, rep);
      Move(buffer, readFrom + diff, readFrom, len - readFrom);
      len := len + diff;
      buffer[len] := NUL;
      assert buffer[..] == m1[len := NUL];
      Put(buffer, j, rep);
      assert buffer[..len] == buffer[..][..len];
    }

    /** Longer replacement: sized from left to right, then rewritten from right to left.

        Overrun: the rewriting needs more room than was made, and the source goes on writing past
        the end of the buffer; nothing is said about the string then. */
    method ReplaceGrowing(find: string, rep: string) returns (outcome: Outcome)
      requires Valid() && buffer != null && 0 < |find| < |rep| && NoNul(rep)
      modifies this, buffer
      ensures outcome == Done ==> Valid() && Text() == Grow(old(Text()), find, rep)
      ensures outcome == NoMemory ==>
                Valid() && Text() == old(Text()) && old(capacity) < |ReplaceAll(old(Text()), find, rep)|
      ensures outcome == Overrun ==>
                && !NoStraddle(find, rep)
                && |ReplaceAll(old(Text()), find, rep)| <= capacity < |Grow(old(Text()), find, rep)|
    {
      hide ReplaceFrom, ReplaceAll, FindFrom, GrowFrom, LastOccurrence, NoNul, NoStraddle;
      ghost var s := Text();
      var size := SizeNeeded(find, rep);
      if size == len {
        NoOccurrence(s, find, rep);
        return Done;
      }
      if size > capacity {
        var ok := ChangeBuffer(size);
        if !ok { return NoMemory; }
        assert buffer[..len] == s;
      }
      var index := len - 1;
      while index >= 0
        invariant Valid() && buffer != null && -1 <= index < len && size <= capacity
        invariant buffer == old(buffer) || fresh(buffer)
        invariant GrowFrom(Text(), find, rep, index) == Grow(s, find, rep)
        decreases index
      {
        ghost var t := Text();
        GrowUnfolds(t, find, rep, index);
        index := LastIndexOf(find, index);
        if index < 0 { break; }
        if len + |rep| - |find| > capacity {
          GrowOutgrows(s, t, find, rep, index, size, capacity);
          return Overrun;
        }
        ExpandAt(index, find, rep);
        index := index - 1;
      }
      GrowUnfolds(Text(), find, rep, index);
      outcome := Done;
    }

    /** Replaces the occurrences of find. */
    method Replace(find: string, rep: string) returns (outcome: Outcome)
      requires Valid() && NoNul(find) && NoNul(rep)
      modifies this, buffer
      ensures outcome != Overrun ==> Valid()
      ensures find == "" ==> outcome == Done && Text() == old(Text())
      ensures find != "" && outcome == Done && |rep| <= |find| ==> Text() == ReplaceAll(old(Text()), find, rep)
      ensures find != "" && outcome == Done && |rep| > |find| ==> Text() == Grow(old(Text()), find, rep)
      ensures outcome == NoMemory ==>
                Text() == old(Text()) && |rep| > |find| > 0 && old(capacity) < |ReplaceAll(old(Text()), find, rep)|
      ensures outcome == Overrun ==>
                && |rep| > |find| > 0 && !NoStraddle(find, rep)
                && |ReplaceAll(old(Text()), find, rep)| <= capacity < |Grow(old(Text()), find, rep)|
      ensures Unbordered(find) && NoStraddle(find, rep) && find != "" && outcome == Done ==>
                Text() == ReplaceAll(old(Text()), find, rep)
    {
      if len == 0 || find == "" { return Done; }
      ghost var s := Text();
      if |rep| == |find| {
        ReplaceEqual(find, rep);
        outcome := Done;
      } else if |rep| < |find| {
        ReplaceShrinking(find, rep);
        outcome := Done;
      } else {
        outcome := ReplaceGrowing(find, rep);
        if Unbordered(find) && NoStraddle(find, rep) {
          GrowMeetsReplaceAll(s, find, rep);
        }
      }
    }
  }
}

