/** The few JavaScript string operations the chat handler relies on:
    the whitespace class shared by the regular-expression escape `\s` and
    `String.prototype.trim`, `indexOf`/`includes`, and `replace` with a
    string pattern (which removes the first occurrence only). */
module Strings {
  import opened Wrappers

  /** JavaScript WhiteSpace and LineTerminator code points: exactly what `\s`
      matches and what `trim` strips. */
  predicate IsSpace(c: char) {
    || c == '\t' || c == '\n' || c == '\U{B}' || c == '\U{C}' || c == '\r' || c == ' '
    || c == '\U{A0}' || c == '\U{1680}' || ('\U{2000}' <= c <= '\U{200A}')
    || c == '\U{2028}' || c == '\U{2029}' || c == '\U{202F}' || c == '\U{205F}'
    || c == '\U{3000}' || c == '\U{FEFF}'
  }

  /** s has a whitespace character at index k. */
  predicate SpaceAt(s: string, k: nat) {
    k < |s| && IsSpace(s[k])
  }

  /** Every character of s[i..j] is whitespace. */
  predicate AllSpace(s: string, i: nat, j: nat)
    requires i <= j <= |s|
  {
    forall k :: i <= k < j ==> SpaceAt(s, k)
  }

  /** The literal p occurs in s starting at index i. */
  predicate IsPrefixAt(s: string, i: nat, p: string) {
    i + |p| <= |s| && s[i..i + |p|] == p
  }

  /** The end of the whitespace run that starts at i: a greedy `\s*`. */
  function SkipSpace(s: string, i: nat): (j: nat)
    requires i <= |s|
    ensures i <= j <= |s|
    ensures j == |s| || !IsSpace(s[j])
    decreases |s| - i
  {
    if i < |s| && IsSpace(s[i]) then SkipSpace(s, i + 1) else i
  }

  /** Everything SkipSpace skips is whitespace, and it stops at a character
      that is not. */
  lemma {:induction false} SkipSpaceSkipsSpace(s: string, i: nat)
    requires i <= |s|
    ensures AllSpace(s, i, SkipSpace(s, i)) && !SpaceAt(s, SkipSpace(s, i))
    decreases |s| - i
  {
    if i < |s| && IsSpace(s[i]) {
      SkipSpaceSkipsSpace(s, i + 1);
    }
  }

  /** A maximal whitespace run is unique: whatever index ends one is SkipSpace's answer. */
  lemma SkipSpaceUnique(s: string, i: nat, j: nat)
    requires i <= j <= |s| && AllSpace(s, i, j) && !SpaceAt(s, j)
    ensures SkipSpace(s, i) == j
  {
    SkipSpaceSkipsSpace(s, i);
  }

  /** Searching backwards from j (no further back than lo) for the end of the
      last non-whitespace character. */
  function TrimRight(s: string, lo: nat, j: nat): (hi: nat)
    requires lo <= j <= |s|
    ensures lo <= hi <= j
    ensures hi == lo || !IsSpace(s[hi - 1])
    decreases j
  {
    if lo < j && IsSpace(s[j - 1]) then TrimRight(s, lo, j - 1) else j
  }

  /** Everything TrimRight steps back over is whitespace. */
  lemma {:induction false} TrimRightSkipsSpace(s: string, lo: nat, j: nat)
    requires lo <= j <= |s|
    ensures AllSpace(s, TrimRight(s, lo, j), j)
    decreases j
  {
    if lo < j && IsSpace(s[j - 1]) {
      TrimRightSkipsSpace(s, lo, j - 1);
    }
  }

  /** The slice that `trim` keeps; it starts and ends with a non-whitespace
      character unless it is empty. */
  function TrimBounds(s: string): (b: (nat, nat))
    ensures b.0 <= b.1 <= |s|
    ensures b.0 < b.1 ==> !IsSpace(s[b.0]) && !IsSpace(s[b.1 - 1])
  {
    var lo := SkipSpace(s, 0);
    var hi := TrimRight(s, lo, |s|);
    (lo, hi)
  }

  /** Everything outside the slice that `trim` keeps is whitespace, so an
      empty result means an all-whitespace string. */
  lemma TrimBoundsSpace(s: string)
    ensures AllSpace(s, 0, TrimBounds(s).0) && AllSpace(s, TrimBounds(s).1, |s|)
    ensures TrimBounds(s).0 == TrimBounds(s).1 ==> AllSpace(s, 0, |s|)
  {
    SkipSpaceSkipsSpace(s, 0);
    TrimRightSkipsSpace(s, SkipSpace(s, 0), |s|);
  }

  /** JavaScript's `String.prototype.trim`. */
  function Trim(s: string): (t: string)
    ensures |t| <= |s|
    ensures |t| > 0 ==> !IsSpace(t[0]) && !IsSpace(t[|t| - 1])
  {
    var b := TrimBounds(s);
    s[b.0..b.1]
  }

  /** The first occurrence of p in s at or after i. */
  function IndexOfFrom(s: string, p: string, i: nat): (r: Option<nat>)
    requires i <= |s|
    ensures r.Some? ==> i <= r.value && IsPrefixAt(s, r.value, p)
    decreases |s| - i
  {
    if IsPrefixAt(s, i, p) then Some(i)
    else if i == |s| then None
    else IndexOfFrom(s, p, i + 1)
  }

  /** IndexOfFrom finds the first occurrence: none starts between i and the
      index it returns, and there is none at all from i on when it returns
      None. */
  lemma {:induction false} IndexOfFromFirst(s: string, p: string, i: nat)
    requires i <= |s|
    ensures IndexOfFrom(s, p, i).Some? ==>
              forall k :: i <= k < IndexOfFrom(s, p, i).value ==> !IsPrefixAt(s, k, p)
    ensures IndexOfFrom(s, p, i).None? ==> forall k :: i <= k <= |s| ==> !IsPrefixAt(s, k, p)
    decreases |s| - i
  {
    if !IsPrefixAt(s, i, p) && i < |s| {
      IndexOfFromFirst(s, p, i + 1);
    }
  }

  /** JavaScript's `s.indexOf(p)`, with -1 as None: the first occurrence of
      p, or None when p occurs nowhere. */
  function IndexOf(s: string, p: string): (r: Option<nat>)
    ensures r.Some? ==> IsPrefixAt(s, r.value, p) && forall k :: 0 <= k < r.value ==> !IsPrefixAt(s, k, p)
    ensures r.None? ==> forall k :: 0 <= k <= |s| ==> !IsPrefixAt(s, k, p)
  {
    IndexOfFromFirst(s, p, 0);
    IndexOfFrom(s, p, 0)
  }

  /** JavaScript's `s.includes(p)`: p occurs somewhere in s (ContainsAt and
      NotContains prove both directions). */
  predicate Contains(s: string, p: string) {
    IndexOf(s, p).Some?
  }

  /** An occurrence of p makes Contains hold, and indexOf answers it or an
      earlier one. */
  lemma ContainsAt(s: string, p: string, k: nat)
    requires IsPrefixAt(s, k, p)
    ensures Contains(s, p) && IndexOf(s, p).value <= k
  {
  }

  /** indexOf answers the first occurrence. */
  lemma IndexOfAt(s: string, p: string, k: nat)
    requires IsPrefixAt(s, k, p)
    requires forall j :: 0 <= j < k ==> !IsPrefixAt(s, j, p)
    ensures IndexOf(s, p) == Some(k)
  {
    ContainsAt(s, p, k);
  }

  /** Without an occurrence, Contains fails. */
  lemma NotContains(s: string, p: string)
    requires forall k :: 0 <= k <= |s| ==> !IsPrefixAt(s, k, p)
    ensures !Contains(s, p)
  {
  }

  /** JavaScript's `s.replace(p, '')` for a string pattern p: only the first
      occurrence is removed. */
  function RemoveFirst(s: string, p: string): (r: string)
    ensures !Contains(s, p) ==> r == s
    ensures Contains(s, p) ==> |r| == |s| - |p|
  {
    match IndexOf(s, p)
    case None => s
    case Some(i) => s[..i] + s[i + |p|..]
  }

  /** A slice of a slice is a slice of the whole string. */
  lemma SliceOfSlice(s: string, lo: nat, hi: nat, i: nat, j: nat)
    requires lo <= hi <= |s| && i <= j <= hi - lo
    ensures s[lo..hi][i..j] == s[lo + i..lo + j]
  {
    assert forall t :: 0 <= t < j - i ==> s[lo..hi][i..j][t] == s[lo + i..lo + j][t];
  }

  /** `replace` with a string pattern cuts out exactly the first occurrence
      and keeps the text around it in order. */
  lemma RemoveFirstSpec(s: string, p: string, i: nat)
    requires IsPrefixAt(s, i, p)
    requires forall k :: 0 <= k < i ==> !IsPrefixAt(s, k, p)
    ensures RemoveFirst(s, p) == s[..i] + s[i + |p|..]
  {
    IndexOfAt(s, p, i);
  }

  /** An occurrence inside a slice is an occurrence in the whole string. */
  lemma ContainsInSlice(s: string, lo: nat, hi: nat, p: string)
    requires lo <= hi <= |s|
    requires Contains(s[lo..hi], p)
    ensures Contains(s, p)
  {
    var k := IndexOf(s[lo..hi], p).value;
    assert IsPrefixAt(s[lo..hi], k, p);
    SliceOfSlice(s, lo, hi, k, k + |p|);
    ContainsAt(s, p, lo + k);
  }

  /** Trimming a string whose tail from n on is whitespace keeps only text
      from its first n characters. */
  lemma {:induction false} TrimOfPadded(x: string, n: nat, p: string)
    requires n <= |x| && AllSpace(x, n, |x|)
    requires Contains(Trim(x), p)
    ensures Contains(x[..n], p)
  {
    var b := TrimBounds(x);
    if b.0 < b.1 {
      assert !SpaceAt(x, b.1 - 1);
      assert b.1 <= n;
      assert Trim(x) == x[..n][b.0..b.1];
      ContainsInSlice(x[..n], b.0, b.1, p);
    } else {
      var k := IndexOf(Trim(x), p).value;
      assert |p| == 0;
      assert IsPrefixAt(x[..n], 0, p);
      ContainsAt(x[..n], p, 0);
    }
  }

  /** A stretch of s that begins and ends with non-whitespace characters
      lies inside the slice that `trim` keeps. */
  lemma InsideTrim(s: string, k: nat, n: nat)
    requires 0 < n && k + n <= |s| && !IsSpace(s[k]) && !IsSpace(s[k + n - 1])
    ensures TrimBounds(s).0 <= k && k + n <= TrimBounds(s).1
  {
    assert !SpaceAt(s, k) && !SpaceAt(s, k + n - 1);
    TrimBoundsSpace(s);
  }

  /** Trimming never removes an occurrence of a pattern that begins and ends
      with non-whitespace characters. */
  lemma TrimKeeps(x: string, p: string)
    requires |p| > 0 && !IsSpace(p[0]) && !IsSpace(p[|p| - 1])
    requires Contains(x, p)
    ensures Contains(Trim(x), p)
  {
    var k := IndexOf(x, p).value;
    assert x[k..k + |p|] == p;
    assert x[k] == p[0] && x[k + |p| - 1] == p[|p| - 1];
    InsideTrim(x, k, |p|);
    var b := TrimBounds(x);
    SliceOfSlice(x, b.0, b.1, k - b.0, k - b.0 + |p|);
    ContainsAt(Trim(x), p, k - b.0);
  }

  /** `replace` with a string pattern removes the first occurrence only: a
      second, non-overlapping occurrence survives it. */
  lemma {:induction false} RemoveFirstKeepsLater(s: string, p: string, i: nat, j: nat)
    requires IsPrefixAt(s, i, p) && IsPrefixAt(s, j, p) && i + |p| <= j
    ensures Contains(RemoveFirst(s, p), p)
  {
    ContainsAt(s, p, i);
    var f := IndexOf(s, p).value;
    var r := RemoveFirst(s, p);
    assert r == s[..f] + s[f + |p|..];
    assert r[j - |p|..j] == s[j..j + |p|];
    ContainsAt(r, p, j - |p|);
  }
}
