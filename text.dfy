/** String helpers: C#'s `StartsWith`, `EndsWith` and invariant upper-casing,
    compared ordinally on UTF-16 code units (`char`). */
module Text {

  predicate StartsWith(s: string, prefix: string) {
    |prefix| <= |s| && s[..|prefix|] == prefix
  }

  predicate EndsWith(s: string, suffix: string) {
    |suffix| <= |s| && s[|s| - |suffix|..] == suffix
  }

  /** Invariant-culture upper case of one character, for the ASCII letters. */
  function ToUpperInvariant(c: char): (r: char)
    ensures 'a' <= c <= 'z' ==> 'A' <= r <= 'Z'
    ensures !('a' <= c <= 'z') ==> r == c
  {
    if 'a' <= c <= 'z' then (c as int - 'a' as int + 'A' as int) as char else c
  }

  /** Ordinal comparison ignoring the case of ASCII letters. */
  predicate EqualsIgnoreCase(a: string, b: string) {
    |a| == |b| && forall i :: 0 <= i < |a| ==> ToUpperInvariant(a[i]) == ToUpperInvariant(b[i])
  }

  lemma StartsWithConcat(a: string, b: string)
    ensures StartsWith(a + b, a)
  {
    assert (a + b)[..|a|] == a;
  }

  lemma EndsWithConcat(a: string, b: string)
    ensures EndsWith(a + b, b)
  {
    assert (a + b)[|a + b| - |b|..] == b;
  }

  /** A word ending in `suffix` keeps ending in it after text is put in front. */
  lemma EndsWithPrepend(a: string, s: string, suffix: string)
    requires EndsWith(s, suffix)
    ensures EndsWith(a + s, suffix)
  {
    assert (a + s)[|a + s| - |suffix|..] == s[|s| - |suffix|..];
  }

  /** `a + b` ends in `x` exactly when `b` does, once `b` is at least as long as `x`. */
  lemma EndsWithLongTail(a: string, b: string, x: string)
    requires |x| <= |b|
    ensures EndsWith(a + b, x) <==> EndsWith(b, x)
  {
    assert (a + b)[|a + b| - |x|..] == b[|b| - |x|..];
  }

  /** Two prefixes that differ in their first character cannot both be prefixes. */
  lemma StartsWithDiffer(s: string, p: string, q: string)
    requires StartsWith(s, p) && p != [] && q != [] && p[0] != q[0]
    ensures !StartsWith(s, q)
  {
    assert s[0] == s[..|p|][0];
  }

  /** A string cannot end in a suffix whose last character differs from its own. */
  lemma EndsWithDiffer(s: string, suffix: string)
    requires s != [] && suffix != [] && s[|s| - 1] != suffix[|suffix| - 1]
    ensures !EndsWith(s, suffix)
  {
    assert |suffix| <= |s| ==> s[|s| - |suffix|..][|suffix| - 1] == s[|s| - 1];
  }

  /** How often a character occurs in a text. */
  function Occurrences(s: string, ch: char): nat {
    if s == [] then 0 else (if s[0] == ch then 1 else 0) + Occurrences(s[1..], ch)
  }

  lemma {:induction false} OccurrencesConcat(a: string, b: string, ch: char)
    ensures Occurrences(a + b, ch) == Occurrences(a, ch) + Occurrences(b, ch)
  {
    if a != [] {
      assert (a + b)[1..] == a[1..] + b;
      OccurrencesConcat(a[1..], b, ch);
    } else {
      assert a + b == b;
    }
  }

  lemma {:induction false} OccurrencesNone(s: string, ch: char)
    requires ch !in s
    ensures Occurrences(s, ch) == 0
  {
    if s != [] {
      OccurrencesNone(s[1..], ch);
    }
  }

  /** A character between two texts that lack it occurs once. */
  lemma OccurrencesOne(a: string, ch: char, b: string)
    requires ch !in a && ch !in b
    ensures Occurrences(a + [ch] + b, ch) == 1
  {
    OccurrencesNone(a, ch);
    OccurrencesNone(b, ch);
    OccurrencesConcat(a + [ch], b, ch);
    OccurrencesConcat(a, [ch], ch);
    assert [ch][1..] == [];
  }
}
