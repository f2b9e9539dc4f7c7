/** Kotlin's String.isBlank() and String.trim() on the JVM.

    Both are defined by Char.isWhitespace(), which on the JVM is
    Character.isWhitespace(c) || Character.isSpaceChar(c): the ASCII
    control whitespace, the information separators U+001C..U+001F, and
    every Unicode space, line or paragraph separator (including the
    no-break spaces that Java's isWhitespace alone excludes). */
module Text {

  predicate IsWhitespace(c: char)
  {
    || c == '\t' || c == '\n' || c == '\U{000B}' || c == '\U{000C}' || c == '\r'
    || ('\U{001C}' <= c <= '\U{001F}')
    || c == ' ' || c == '\U{00A0}' || c == '\U{1680}'
    || ('\U{2000}' <= c <= '\U{200A}')
    || c == '\U{2028}' || c == '\U{2029}' || c == '\U{202F}' || c == '\U{205F}'
    || c == '\U{3000}'
  }

  /** isBlank(): empty, or made only of whitespace. */
  predicate IsBlank(s: string)
  {
    forall i :: 0 <= i < |s| ==> IsWhitespace(s[i])
  }

  /** The index of the first character at or after `i` that is not
      whitespace, or |s| when there is none. */
  function SkipWhitespace(s: string, i: nat): (k: nat)
    requires i <= |s|
    ensures i <= k <= |s|
    ensures forall j :: i <= j < k ==> IsWhitespace(s[j])
    ensures k < |s| ==> !IsWhitespace(s[k])
    decreases |s| - i
  {
    if i < |s| && IsWhitespace(s[i]) then SkipWhitespace(s, i + 1) else i
  }

  /** The end of `s[lo..hi]` once its trailing whitespace is dropped. */
  function SkipWhitespaceBack(s: string, lo: nat, hi: nat): (k: nat)
    requires lo <= hi <= |s|
    ensures lo <= k <= hi
    ensures forall j :: k <= j < hi ==> IsWhitespace(s[j])
    ensures lo < k ==> !IsWhitespace(s[k - 1])
    decreases hi
  {
    if lo < hi && IsWhitespace(s[hi - 1]) then SkipWhitespaceBack(s, lo, hi - 1) else hi
  }

  /** `r` is a piece of `s` with only whitespace before and after it and
      no whitespace at either of its own ends: what trim() returns. */
  predicate IsTrimOf(s: string, r: string)
  {
    && (r == [] || (!IsWhitespace(r[0]) && !IsWhitespace(r[|r| - 1])))
    && exists a :: 0 <= a <= |s| - |r| && r == s[a..a + |r|]
                   && IsBlank(s[..a]) && IsBlank(s[a + |r|..])
  }

  /** trim(): drops whitespace at both ends and keeps the middle as it is.
      The result is empty exactly when the input is blank, and otherwise
      starts and ends with a character that is not whitespace. */
  function Trim(s: string): (r: string)
    ensures |r| <= |s|
    ensures r == [] <==> IsBlank(s)
    ensures r == [] || (!IsWhitespace(r[0]) && !IsWhitespace(r[|r| - 1]))
    ensures exists a :: 0 <= a <= |s| - |r| && r == s[a..a + |r|]
                        && IsBlank(s[..a]) && IsBlank(s[a + |r|..])
  {
    var start := SkipWhitespace(s, 0);
    var end := SkipWhitespaceBack(s, start, |s|);
    assert start == end ==> IsBlank(s);
    assert start < end ==> !IsBlank(s) by {
      if start < end {
        assert !IsWhitespace(s[start]);
      }
    }
    assert s[start..end] == s[start..start + (end - start)];
    assert IsBlank(s[..start]) && IsBlank(s[end..]);
    s[start..end]
  }

  /** Trim's contract pins its result down: any piece of `s` surrounded by
      whitespace and free of whitespace at its own ends is Trim(s). */
  lemma TrimUnique(s: string, r: string)
    requires IsTrimOf(s, r)
    ensures r == Trim(s)
  {
    var a :| 0 <= a <= |s| - |r| && r == s[a..a + |r|]
             && IsBlank(s[..a]) && IsBlank(s[a + |r|..]);
    BlankOutside(s, a, a + |r|);
    if r == [] {
      assert IsBlank(s);
    } else {
      // The piece begins at the first non-whitespace character and ends
      // after the last one, which is where Trim cuts.
      assert s[a] == r[0] && s[a + |r| - 1] == r[|r| - 1];
      var start := SkipWhitespace(s, 0);
      var end := SkipWhitespaceBack(s, start, |s|);
      assert a == start;
      assert a + |r| == end;
      assert Trim(s) == s[start..end];
    }
  }

  /** A blank prefix and a blank suffix make every character outside
      `s[lo..hi]` whitespace. */
  lemma BlankOutside(s: string, lo: nat, hi: nat)
    requires lo <= hi <= |s|
    requires IsBlank(s[..lo]) && IsBlank(s[hi..])
    ensures forall i :: 0 <= i < |s| && !(lo <= i < hi) ==> IsWhitespace(s[i])
  {
    forall i | 0 <= i < |s| && !(lo <= i < hi) ensures IsWhitespace(s[i]) {
      if i < lo {
        assert s[..lo][i] == s[i];
      } else {
        assert s[hi..][i - hi] == s[i];
      }
    }
  }

  /** Trimming a trimmed string changes nothing. */
  lemma TrimIdempotent(s: string)
    ensures Trim(Trim(s)) == Trim(s)
  {
    var r := Trim(s);
    if r != [] {
      assert SkipWhitespace(r, 0) == 0;
      assert SkipWhitespaceBack(r, 0, |r|) == |r|;
      assert r[0..|r|] == r;
    }
  }

  /** A string is blank exactly when its trimmed form is blank, so a check
      made after trimming agrees with the same check on the raw text. */
  lemma BlankAfterTrim(s: string)
    ensures IsBlank(Trim(s)) <==> IsBlank(s)
  {
    var r := Trim(s);
    if r != [] {
      assert !IsWhitespace(r[0]);
    }
  }
}
