/** Character-level building blocks for the three regular expressions of the
    scheduler, written out by hand.  In Python's `re`, `.` matches every
    character except a newline, `[0-9]` one decimal digit, and every other
    character of these patterns matches itself. */
module Text {

  predicate IsDigit(c: char) {
    '0' <= c <= '9'
  }

  /** One pattern character against one text character. */
  predicate CharMatches(p: char, c: char) {
    if p == '.' then c != '\n' else p == c
  }

  /** The pattern piece `p` matches the text `s` starting at position `i`. */
  predicate PatternAt(s: string, i: nat, p: string) {
    i + |p| <= |s| && forall k | 0 <= k < |p| :: CharMatches(p[k], s[i + k])
  }

  /** `[0-9]+` matches exactly `s[i..j]`. */
  predicate DigitsAt(s: string, i: nat, j: nat) {
    i < j <= |s| && forall k | i <= k < j :: IsDigit(s[k])
  }

  /** `.*` (greedy or lazy) can match exactly `s[i..j]`. */
  predicate DotsAt(s: string, i: nat, j: nat) {
    i <= j <= |s| && '\n' !in s[i..j]
  }

  /** Python's `str.startswith`. */
  predicate StartsWith(s: string, prefix: string) {
    prefix <= s
  }

  /** A text that is its own literal pattern: text containing no `.` matches
      only itself, and a `.` in the pattern also accepts a literal dot. */
  lemma {:induction false} LiteralMatchesItself(s: string, i: nat, p: string)
    requires i + |p| <= |s| && s[i..i + |p|] == p && '\n' !in p
    ensures PatternAt(s, i, p)
  {
    forall k | 0 <= k < |p|
      ensures CharMatches(p[k], s[i + k])
    {
      assert s[i + k] == s[i..i + |p|][k] == p[k];
      assert p[k] != '\n' by { assert p[k] in p; }
    }
  }

  /** A piece of a text, read back at its offset. */
  lemma Embedded(x: string, y: string, s: string)
    requires x + y <= s
    ensures x <= s && |x| + |y| <= |s| && s[|x|..|x| + |y|] == y
  {
    assert s[..|x| + |y|] == x + y;
    assert s[..|x|] == (x + y)[..|x|] == x;
    assert s[|x|..|x| + |y|] == (x + y)[|x|..] == y;
  }
}
