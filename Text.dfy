/**
 * Character classes and string helpers shared by every extractor variant:
 * digits (`[0-9]`, and `\d` restricted to ASCII), the whitespace class `\s`
 * of Python's `re` module and of `str.strip()`, lower-casing, substring search.
 */
module Text {

  predicate IsDigit(c: char) {
    '0' <= c <= '9'
  }

  /** Python's whitespace set (`\s` for str patterns, and what `str.strip()` removes). */
  predicate IsSpace(c: char) {
    c == ' ' || c == '\t' || c == '\n' || c == '\r' || c == '\U{B}' || c == '\U{C}'
    || ('\U{1C}' <= c <= '\U{1F}') || c == '\U{85}' || c == '\U{A0}' || c == '\U{1680}'
    || ('\U{2000}' <= c <= '\U{200A}') || c == '\U{2028}' || c == '\U{2029}'
    || c == '\U{202F}' || c == '\U{205F}' || c == '\U{3000}'
  }

  function LowerChar(c: char): char {
    if 'A' <= c <= 'Z' then (c as int + 32) as char else c
  }

  /** `str.lower()` restricted to ASCII letters. */
  function Lower(s: string): (r: string)
    ensures |r| == |s|
    ensures forall i :: 0 <= i < |s| ==> r[i] == LowerChar(s[i])
  {
    seq(|s|, i requires 0 <= i < |s| => LowerChar(s[i]))
  }

  predicate OccursAt(s: string, sub: string, i: int) {
    0 <= i && i + |sub| <= |s| && s[i..i + |sub|] == sub
  }

  /** A slice of a slice is a slice of the original. */
  lemma SliceOfSlice(s: string, a: nat, b: nat, c: nat, d: nat)
    requires a <= b <= |s| && c <= d <= b - a
    ensures s[a..b][c..d] == s[a + c..a + d]
  {
    assert forall k :: 0 <= k < d - c ==> s[a..b][c..d][k] == s[a + c + k];
  }

  /** Python's `sub in s`. */
  predicate Contains(s: string, sub: string) {
    exists i :: 0 <= i <= |s| && OccursAt(s, sub, i)
  }

  /** `any(w in s for w in words)`. */
  predicate ContainsAny(s: string, words: seq<string>) {
    exists k :: 0 <= k < |words| && Contains(s, words[k])
  }

  /** `w` matches `s` at `i` once each character of `s` is lower-cased. */
  predicate MatchesLoweredAt(s: string, w: string, i: int) {
    0 <= i && i + |w| <= |s| && forall j :: 0 <= j < |w| ==> LowerChar(s[i + j]) == w[j]
  }

  /** `w in s.lower()`, stated on `s` itself. */
  predicate ContainsLowered(s: string, w: string) {
    exists i :: 0 <= i <= |s| && MatchesLoweredAt(s, w, i)
  }

  lemma OccursInLowerAt(s: string, w: string, i: int)
    requires 0 <= i && i + |w| <= |s|
    ensures OccursAt(Lower(s), w, i) <==> MatchesLoweredAt(s, w, i)
  {
    var l := Lower(s);
    if MatchesLoweredAt(s, w, i) {
      assert forall j :: 0 <= j < |w| ==> l[i..i + |w|][j] == w[j];
    }
    if OccursAt(l, w, i) {
      assert forall j :: 0 <= j < |w| ==> w[j] == l[i..i + |w|][j] == l[i + j];
    }
  }

  /** Searching the lower-cased text is matching the text character by character after lower-casing. */
  lemma ContainsInLower(s: string, w: string)
    ensures Contains(Lower(s), w) <==> ContainsLowered(s, w)
  {
    if Contains(Lower(s), w) {
      var i :| 0 <= i <= |s| && OccursAt(Lower(s), w, i);
      OccursInLowerAt(s, w, i);
    }
    if ContainsLowered(s, w) {
      var i :| 0 <= i <= |s| && MatchesLoweredAt(s, w, i);
      OccursInLowerAt(s, w, i);
    }
  }

  /** `any(w in s.lower() for w in words)`, stated on `s` itself. */
  lemma ContainsAnyInLower(s: string, words: seq<string>)
    ensures ContainsAny(Lower(s), words) <==> exists k :: 0 <= k < |words| && ContainsLowered(s, words[k])
  {
    forall k | 0 <= k < |words| {
      ContainsInLower(s, words[k]);
    }
  }

  /** `r` is `s` at offset `a` with nothing but whitespace before and after it. */
  predicate StrippedAt(s: string, r: string, a: int) {
    && OccursAt(s, r, a)
    && (forall k :: 0 <= k < a ==> IsSpace(s[k]))
    && (forall k :: a + |r| <= k < |s| ==> IsSpace(s[k]))
  }

  function StripLeading(s: string): (r: string)
    ensures |r| <= |s| && r == s[|s| - |r|..]
    ensures r == [] || !IsSpace(r[0])
    ensures forall k :: 0 <= k < |s| - |r| ==> IsSpace(s[k])
  {
    if |s| > 0 && IsSpace(s[0]) then StripLeading(s[1..]) else s
  }

  function StripTrailing(s: string): (r: string)
    ensures |r| <= |s| && r == s[..|r|]
    ensures r == [] || !IsSpace(r[|r| - 1])
    ensures forall k :: |r| <= k < |s| ==> IsSpace(s[k])
  {
    if |s| > 0 && IsSpace(s[|s| - 1]) then StripTrailing(s[..|s| - 1]) else s
  }

  /**
   * `str.strip()`: the result is the slice of `s` left once the whitespace at
   * both ends is removed: only whitespace precedes and follows it in `s`, and
   * it neither starts nor ends with whitespace.
   */
  function Strip(s: string): (r: string)
    ensures |r| <= |s|
    ensures r == [] || (!IsSpace(r[0]) && !IsSpace(r[|r| - 1]))
    ensures exists a :: 0 <= a <= |s| - |r| && StrippedAt(s, r, a)
  {
    var left := StripLeading(s);
    var r := StripTrailing(left);
    StrippedAtOfParts(s, left, r);
    r
  }

  /** Removing leading, then trailing whitespace leaves a slice stripped at the leading cut. */
  lemma StrippedAtOfParts(s: string, left: string, r: string)
    requires |left| <= |s| && left == s[|s| - |left|..]
    requires |r| <= |left| && r == left[..|r|]
    requires forall k :: 0 <= k < |s| - |left| ==> IsSpace(s[k])
    requires forall k :: |r| <= k < |left| ==> IsSpace(left[k])
    ensures StrippedAt(s, r, |s| - |left|)
  {
    var a := |s| - |left|;
    forall k | a + |r| <= k < |s|
      ensures IsSpace(s[k])
    {
      assert s[k] == left[k - a];
    }
    assert s[a..a + |r|] == r;
  }
}
