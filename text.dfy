/** The two ordinal string operations the callback decoder uses. */
module Text {

  /** `s.StartsWith(prefix)`, compared character by character. */
  predicate StartsWith(s: string, prefix: string) {
    |prefix| <= |s| && s[..|prefix|] == prefix
  }

  /**
   * `s.Replace(pattern, string.Empty)`: one left-to-right scan that deletes
   * every non-overlapping occurrence of `pattern` found in `s`; what the
   * deletions bring together is not scanned again. .NET refuses an empty
   * pattern.
   */
  function RemoveAll(s: string, pattern: string): (r: string)
    requires pattern != []
    ensures |r| <= |s|
    ensures multiset(r) <= multiset(s)
    decreases |s|
  {
    if |s| < |pattern| then
      s
    else if s[..|pattern|] == pattern then
      assert s == s[..|pattern|] + s[|pattern|..];
      RemoveAll(s[|pattern|..], pattern)
    else
      assert s == [s[0]] + s[1..];
      [s[0]] + RemoveAll(s[1..], pattern)
  }

  /** An occurrence at the very start is deleted and the scan goes on after it. */
  lemma RemoveAllLeading(pattern: string, t: string)
    requires pattern != []
    ensures RemoveAll(pattern + t, pattern) == RemoveAll(t, pattern)
  {
    var s := pattern + t;
    assert s[..|pattern|] == pattern;
    assert s[|pattern|..] == t;
  }

  /** A string in which the pattern's first character never occurs is left as it is. */
  lemma {:induction false} RemoveAllAbsent(s: string, pattern: string)
    requires pattern != []
    requires forall i :: 0 <= i < |s| ==> s[i] != pattern[0]
    ensures RemoveAll(s, pattern) == s
    decreases |s|
  {
    if |s| >= |pattern| {
      assert s[..|pattern|][0] != pattern[0];
      RemoveAllAbsent(s[1..], pattern);
      assert [s[0]] + s[1..] == s;
    }
  }

  /** A first character that cannot start the pattern is kept, and the scan goes on after it. */
  lemma RemoveAllSkip(c: char, t: string, pattern: string)
    requires pattern != [] && c != pattern[0]
    ensures RemoveAll([c] + t, pattern) == [c] + RemoveAll(t, pattern)
  {
    var s := [c] + t;
    assert s[1..] == t;
    if |pattern| <= |s| {
      assert s[..|pattern|][0] == c;
    }
  }

  /** One step of `RemoveAllAfter`: a character before the occurrence is kept. */
  lemma RemoveAllAfterStep(a: string, pattern: string, b: string)
    requires pattern != [] && a != []
    requires forall i :: 0 <= i < |a| ==> a[i] != pattern[0]
    requires RemoveAll(a[1..] + pattern + b, pattern) == a[1..] + RemoveAll(b, pattern)
    ensures RemoveAll(a + pattern + b, pattern) == a + RemoveAll(b, pattern)
  {
    var t := a[1..] + pattern + b;
    assert a + pattern + b == [a[0]] + t;
    RemoveAllSkip(a[0], t, pattern);
    assert [a[0]] + (a[1..] + RemoveAll(b, pattern)) == a + RemoveAll(b, pattern);
  }

  /**
   * An occurrence after other text is deleted too: text in which the
   * pattern's first character never occurs is kept, the occurrence after it
   * is deleted, and the scan goes on after that occurrence.
   */
  lemma {:induction false} RemoveAllAfter(a: string, pattern: string, b: string)
    requires pattern != []
    requires forall i :: 0 <= i < |a| ==> a[i] != pattern[0]
    ensures RemoveAll(a + pattern + b, pattern) == a + RemoveAll(b, pattern)
    decreases |a|
  {
    if a == [] {
      assert a + pattern + b == pattern + b;
      RemoveAllLeading(pattern, b);
    } else {
      RemoveAllAfter(a[1..], pattern, b);
      RemoveAllAfterStep(a, pattern, b);
    }
  }

  /** Two occurrences, each followed by text free of the pattern's first character, are both deleted. */
  lemma RemoveAllBoth(pattern: string, a: string, b: string)
    requires pattern != []
    requires forall i :: 0 <= i < |a| ==> a[i] != pattern[0]
    requires forall i :: 0 <= i < |b| ==> b[i] != pattern[0]
    ensures RemoveAll(pattern + (a + pattern + b), pattern) == a + b
  {
    RemoveAllLeading(pattern, a + pattern + b);
    RemoveAllAfter(a, pattern, b);
    RemoveAllAbsent(b, pattern);
  }

  /** A character that does not occur in the pattern is never deleted. */
  lemma {:induction false} RemoveAllKeeps(s: string, pattern: string, k: nat)
    requires pattern != []
    requires k < |s| && s[k] !in pattern
    ensures s[k] in RemoveAll(s, pattern)
    decreases |s|
  {
    if |s| < |pattern| {
    } else if s[..|pattern|] == pattern {
      RemoveAllKeeps(s[|pattern|..], pattern, k - |pattern|);
    } else if k == 0 {
      assert RemoveAll(s, pattern)[0] == s[0];
    } else {
      RemoveAllKeeps(s[1..], pattern, k - 1);
    }
  }
}
