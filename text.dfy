/**
 * Character and string helpers shared by the inferencer and the extractor:
 * the word characters of the placeholder pattern, lower-casing, and the
 * literal-substring test behind Python's `ele in variable_name`.
 *
 * Only the ASCII part of Python's Unicode-aware `\w` and `str.lower()` is modelled.
 */
module Text {

  /** A character matched by `\w`, restricted to ASCII: letters, digits and underscore. */
  predicate IsWordChar(c: char) {
    ('a' <= c <= 'z') || ('A' <= c <= 'Z') || ('0' <= c <= '9') || c == '_'
  }

  /** A non-empty run of word characters: what `\w+` matches. */
  predicate IsWord(s: string) {
    |s| > 0 && forall i :: 0 <= i < |s| ==> IsWordChar(s[i])
  }

  /** ASCII lower-casing of one character. */
  function LowerChar(c: char): (r: char)
    ensures 'A' <= c <= 'Z' ==> 'a' <= r <= 'z' && r as int - c as int == 32
    ensures !('A' <= c <= 'Z') ==> r == c
    ensures !('A' <= r <= 'Z')
  {
    if 'A' <= c <= 'Z' then (c as int + 32) as char else c
  }

  /** `s.lower()` on ASCII: every character lower-cased, nothing else changed. */
  function Lower(s: string): (r: string)
    ensures |r| == |s|
    ensures forall i :: 0 <= i < |s| ==> r[i] == LowerChar(s[i])
  {
    seq(|s|, i requires 0 <= i < |s| => LowerChar(s[i]))
  }

  /** Lower-casing a second time changes nothing. */
  lemma LowerIdempotent(s: string)
    ensures Lower(Lower(s)) == Lower(s)
  {
  }

  /** `sub` occurs in `s` starting at position `i`. */
  predicate OccursAt(sub: string, s: string, i: nat) {
    i + |sub| <= |s| && s[i..i + |sub|] == sub
  }

  /** Python's `sub in s` on strings: a literal substring test, not word-boundary aware. */
  predicate Contains(sub: string, s: string) {
    exists i: nat :: i <= |s| && OccursAt(sub, s, i)
  }

  /** A string cannot contain a substring holding a character it lacks. */
  lemma NotContainedByChar(sub: string, s: string, c: char)
    requires c in sub && c !in s
    ensures !Contains(sub, s)
  {
    var j :| 0 <= j < |sub| && sub[j] == c;
    forall i: nat | i <= |s|
      ensures !OccursAt(sub, s, i)
    {
      if i + |sub| <= |s| {
        assert s[i..i + |sub|][j] == s[i + j] != c;
      }
    }
  }

  /**
   * A sharper form: an occurrence would put `sub[j]` at a position of at least
   * `j`, so it suffices that `sub[j]` is absent from everything past a prefix of
   * length at most `j`.
   */
  lemma NotContainedByCharAfter(sub: string, pre: string, post: string, j: nat)
    requires j < |sub| && |pre| <= j && sub[j] !in post
    ensures !Contains(sub, pre + post)
  {
    var s := pre + post;
    forall i: nat | i <= |s|
      ensures !OccursAt(sub, s, i)
    {
      if i + |sub| <= |s| {
        assert s[i + j] == post[i + j - |pre|];
        assert s[i..i + |sub|][j] == s[i + j] != sub[j];
      }
    }
  }

  /** The mirror image: `sub[j]` absent from everything before a short enough suffix. */
  lemma NotContainedByCharBefore(sub: string, pre: string, post: string, j: nat)
    requires j < |sub| && |post| < |sub| - j && sub[j] !in pre
    ensures !Contains(sub, pre + post)
  {
    var s := pre + post;
    forall i: nat | i <= |s|
      ensures !OccursAt(sub, s, i)
    {
      if i + |sub| <= |s| {
        assert s[i + j] == pre[i + j];
        assert s[i..i + |sub|][j] == s[i + j] != sub[j];
      }
    }
  }

  /** Number of newline characters in `s`. */
  function CountNewlines(s: string): (n: nat)
    ensures n <= |s|
    ensures n == 0 <==> '\n' !in s
  {
    if s == [] then 0
    else (if s[0] == '\n' then 1 else 0) + CountNewlines(s[1..])
  }

  /** Newlines of a concatenation are those of its parts. */
  lemma {:induction false} CountNewlinesAppend(a: string, b: string)
    ensures CountNewlines(a + b) == CountNewlines(a) + CountNewlines(b)
  {
    if a == [] {
      assert a + b == b;
    } else {
      assert (a + b)[1..] == a[1..] + b;
      CountNewlinesAppend(a[1..], b);
    }
  }
}
