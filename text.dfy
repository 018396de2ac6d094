/** String primitives shared by the model: JavaScript's whitespace class (`\s`, `trim()`),
    substring search (`includes`, `indexOf`) and ASCII lower-casing. */
module Text {
  import opened Wrappers

  /** JavaScript's `\s` class, which is also the set `String.prototype.trim` removes:
      WhiteSpace and LineTerminator code points of ECMA-262. */
  predicate IsSpace(c: char) {
    c == ' ' || c == '\t' || c == '\n' || c == '\r' || c == '\U{000B}' || c == '\U{000C}'
    || c == '\U{00A0}' || c == '\U{1680}' || ('\U{2000}' <= c <= '\U{200A}')
    || c == '\U{2028}' || c == '\U{2029}' || c == '\U{202F}' || c == '\U{205F}'
    || c == '\U{3000}' || c == '\U{FEFF}'
  }

  /** The line terminators that `.`, `^` and `$` (multiline) of a JavaScript regex respect. */
  predicate IsLineTerminator(c: char) {
    c == '\n' || c == '\r' || c == '\U{2028}' || c == '\U{2029}'
  }

  lemma LineTerminatorIsSpace(c: char)
    requires IsLineTerminator(c)
    ensures IsSpace(c)
  {
  }

  ghost predicate AllSpace(s: string) {
    forall i :: 0 <= i < |s| ==> IsSpace(s[i])
  }

  /** A run of whitespace characters inside `s` is a whitespace string. */
  lemma SpaceRun(s: string, lo: nat, hi: nat)
    requires lo <= hi <= |s|
    requires forall k :: lo <= k < hi ==> IsSpace(s[k])
    ensures AllSpace(s[lo..hi])
  {
    var t := s[lo..hi];
    assert forall i :: 0 <= i < |t| ==> t[i] == s[lo + i];
  }

  /** A greedy `\s*` starting at `b` runs past any whitespace character `m` that only
      whitespace separates from `b`. */
  lemma SpacesReach(s: string, b: nat, m: nat)
    requires b <= m < |s| && AllSpace(s[b..m]) && IsSpace(s[m])
    ensures m < SkipSpaces(s, b)
  {
    var t := s[b..m];
    assert forall k :: b <= k < m ==> s[k] == t[k - b];
  }

  /** A string that `trim()` leaves as it is. */
  ghost predicate IsTrimmed(s: string) {
    s == [] || (!IsSpace(s[0]) && !IsSpace(s[|s| - 1]))
  }

  /** A concatenation splits back into its two parts. */
  lemma ConcatParts(a: string, b: string)
    ensures (a + b)[..|a|] == a && (a + b)[|a|..] == b
  {
  }

  /** Concatenation is associative; stated once so that callers need not rely on the
      solver's sequence extensionality. */
  lemma AppendAssoc(a: string, b: string, c: string)
    ensures a + b + c == a + (b + c)
  {
  }

  lemma AppendEmpty(a: string)
    ensures [] + a == a && a + [] == a
  {
  }

  /** A slice splits at any index inside it. */
  lemma SliceSplit(s: string, i: nat, m: nat, e: nat)
    requires i <= m <= e <= |s|
    ensures s[i..e] == s[i..m] + s[m..e]
  {
  }

  /** `s.endsWith(t)`. */
  predicate EndsWith(s: string, t: string) {
    |t| <= |s| && s[|s| - |t|..] == t
  }

  /** `pat` occurs in `s` starting at index `i`. */
  predicate OccursAt(s: string, pat: string, i: int) {
    0 <= i && i + |pat| <= |s| && s[i..i + |pat|] == pat
  }

  /** An occurrence inside a slice is an occurrence in the whole string. */
  lemma OccursInSlice(s: string, lo: nat, hi: nat, pat: string, j: nat)
    requires lo <= hi <= |s| && OccursAt(s[lo..hi], pat, j)
    ensures OccursAt(s, pat, lo + j)
  {
    var u := s[lo..hi][j..j + |pat|];
    var v := s[lo + j..lo + j + |pat|];
    assert forall k :: 0 <= k < |u| ==> u[k] == v[k];
    assert u == v;
  }

  /** `s.includes(pat)`. */
  predicate Contains(s: string, pat: string) {
    exists i | 0 <= i <= |s| - |pat| :: OccursAt(s, pat, i)
  }

  /** The leftmost occurrence of `pat` at or after `from` (`s.indexOf(pat, from)`). */
  function FindFrom(s: string, pat: string, from: int): (r: Option<nat>)
    decreases |s| - from
    ensures r.Some? ==> from <= r.value && OccursAt(s, pat, r.value)
    ensures r.Some? ==> forall j :: from <= j < r.value ==> !OccursAt(s, pat, j)
    ensures r.None? ==> forall j :: from <= j ==> !OccursAt(s, pat, j)
  {
    if from + |pat| > |s| then None
    else if OccursAt(s, pat, from) then Some(from)
    else FindFrom(s, pat, from + 1)
  }

  /** The first index at or after `i` that is not whitespace (or `|s|`): where a greedy
      `\s*` starting at `i` stops. */
  function SkipSpaces(s: string, i: nat): (j: nat)
    requires i <= |s|
    decreases |s| - i
    ensures i <= j <= |s|
    ensures forall k :: i <= k < j ==> IsSpace(s[k])
    ensures j < |s| ==> !IsSpace(s[j])
  {
    if i < |s| && IsSpace(s[i]) then SkipSpaces(s, i + 1) else i
  }

  /** The index after the last non-whitespace character in `s[lo..j]` (or `lo`): where a
      greedy `\s*` that must end at `j` starts. */
  function SkipSpacesBack(s: string, lo: nat, j: nat): (k: nat)
    requires lo <= j <= |s|
    decreases j
    ensures lo <= k <= j
    ensures forall m :: k <= m < j ==> IsSpace(s[m])
    ensures k > lo ==> !IsSpace(s[k - 1])
  {
    if j > lo && IsSpace(s[j - 1]) then SkipSpacesBack(s, lo, j - 1) else j
  }

  /** `trim()`: the result has no surrounding whitespace. */
  function Trim(s: string): (r: string)
    ensures IsTrimmed(r)
  {
    var a := SkipSpaces(s, 0);
    s[a..SkipSpacesBack(s, a, |s|)]
  }

  /** `trim()` removes whitespace and nothing else: its result is the part of `s`
      between a whitespace prefix and a whitespace suffix. */
  lemma TrimSlice(s: string)
    ensures var a := SkipSpaces(s, 0); var r := Trim(s);
            && a + |r| <= |s| && r == s[a..a + |r|]
            && AllSpace(s[..a]) && AllSpace(s[a + |r|..])
  {
    var a := SkipSpaces(s, 0);
    var e := SkipSpacesBack(s, a, |s|);
    SpaceRun(s, 0, a);
    SpaceRun(s, e, |s|);
  }

  /** The split of a string into leading whitespace, a trimmed core and trailing whitespace
      is unique, so `trim()` returns that core. */
  lemma TrimSurrounded(w1: string, x: string, w2: string)
    requires AllSpace(w1) && AllSpace(w2) && IsTrimmed(x)
    ensures Trim(w1 + x + w2) == x
  {
    var s := w1 + x + w2;
    var a := if x == [] then |s| else |w1|;
    assert forall k :: 0 <= k < a ==> IsSpace(s[k]) by {
      forall k | 0 <= k < a ensures IsSpace(s[k]) {
        if k < |w1| { assert s[k] == w1[k]; } else { assert s[k] == w2[k - |w1|]; }
      }
    }
    assert SkipSpaces(s, 0) == a by {
      if x != [] { assert s[|w1|] == x[0]; }
    }
    var e := |w1| + |x|;
    assert SkipSpacesBack(s, a, |s|) == (if x == [] then a else e) by {
      if x != [] {
        assert s[e - 1] == x[|x| - 1];
        forall m | e <= m < |s| ensures IsSpace(s[m]) { assert s[m] == w2[m - e]; }
      }
    }
    assert s[|w1|..e] == x;
  }

  /** Trimming text followed by whitespace yields the text. */
  lemma TrimSpaceAfter(x: string, t: string, w: string)
    requires x == t + w && IsTrimmed(t) && AllSpace(w)
    ensures Trim(x) == t
  {
    AppendEmpty(t);
    TrimSurrounded([], t, w);
  }

  /** Whether `c` is an upper-case ASCII letter. */
  predicate IsUpper(c: char) {
    'A' <= c <= 'Z'
  }

  /** ASCII lower-casing of one character: an upper-case letter becomes the lower-case
      letter at the same place in the alphabet, and every other character stays. */
  function LowerChar(c: char): (d: char)
    ensures IsUpper(c) ==> 'a' <= d <= 'z' && d as int - 'a' as int == c as int - 'A' as int
    ensures !IsUpper(c) ==> d == c
    ensures !IsUpper(d)
  {
    if 'A' <= c <= 'Z' then (c as int + 32) as char else c
  }

  /** `toLowerCase()`, restricted to ASCII letters: character by character, and no
      upper-case letter is left. */
  function Lower(s: string): (r: string)
    ensures |r| == |s|
    ensures forall i :: 0 <= i < |s| ==> r[i] == LowerChar(s[i])
    ensures forall i :: 0 <= i < |r| ==> !IsUpper(r[i])
  {
    seq(|s|, i requires 0 <= i < |s| => LowerChar(s[i]))
  }

  /** Lower-casing works piecewise. */
  lemma LowerAppend(a: string, b: string)
    ensures Lower(a + b) == Lower(a) + Lower(b)
  {
  }

  /** A string without upper-case letters is its own lower-cased form. */
  lemma LowerOfLowercase(s: string)
    requires forall i :: 0 <= i < |s| ==> !IsUpper(s[i])
    ensures Lower(s) == s
  {
  }

  /** Lower-casing twice is lower-casing once. */
  lemma LowerIdempotent(s: string)
    ensures Lower(Lower(s)) == Lower(s)
  {
    LowerOfLowercase(Lower(s));
  }

  /** Finding `pat` in `s` means finding it in any string that has `s` as a prefix. */
  lemma ContainsExtend(s: string, t: string, pat: string)
    requires Contains(s, pat)
    ensures Contains(s + t, pat)
  {
    var i :| 0 <= i <= |s| - |pat| && OccursAt(s, pat, i);
    assert (s + t)[i..i + |pat|] == s[i..i + |pat|];
    assert OccursAt(s + t, pat, i);
  }
}
