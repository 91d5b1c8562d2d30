/**
 * The two JavaScript string primitives the reflection script relies on:
 * `String.prototype.includes` (case-sensitive substring containment) and
 * `String.prototype.toLowerCase` (restricted here to ASCII letters).
 */
module Text {

  /** `p` occurs in `s` starting at index `i`. */
  ghost predicate OccursAt(s: string, p: string, i: int)
  {
    0 <= i && i + |p| <= |s| && s[i..i + |p|] == p
  }

  /** `s.includes(p)`: some suffix of `s` starts with `p`. */
  function Contains(s: string, p: string): bool
    decreases |s|
  {
    p <= s || (s != [] && Contains(s[1..], p))
  }

  /** `Contains` finds exactly the occurrences of `p` in `s`. */
  lemma {:induction false} ContainsIff(s: string, p: string)
    ensures Contains(s, p) <==> exists i :: OccursAt(s, p, i)
    decreases |s|
  {
    if p <= s {
      assert OccursAt(s, p, 0);
    } else if s == [] {
      assert forall i :: OccursAt(s, p, i) ==> p == [];
    } else {
      ContainsIff(s[1..], p);
      forall i | OccursAt(s[1..], p, i)
        ensures OccursAt(s, p, i + 1)
      {
        assert s[i + 1..i + 1 + |p|] == s[1..][i..i + |p|];
      }
      forall i | OccursAt(s, p, i)
        ensures OccursAt(s[1..], p, i - 1)
      {
        assert i != 0;
        assert s[1..][i - 1..i - 1 + |p|] == s[i..i + |p|];
      }
    }
  }

  /** Nothing but the empty pattern is contained in the empty string. */
  lemma EmptyContainsOnlyEmpty(p: string)
    ensures Contains("", p) <==> p == ""
  {
  }

  /** Containment is transitive: a pattern inside a pattern found in `s` is found in `s`. */
  lemma ContainsTransitive(s: string, q: string, p: string)
    requires Contains(s, q) && Contains(q, p)
    ensures Contains(s, p)
  {
  }

  /** A string contains its own prefix. */
  lemma PrefixContained(a: string, b: string)
    ensures Contains(a + b, a)
  {
  }

  /** A pattern found in `b` is still found once `b` is prefixed by anything. */
  lemma {:induction false} ContainedInSuffix(a: string, b: string, p: string)
    requires Contains(b, p)
    ensures Contains(a + b, p)
    decreases |a|
  {
    if a == [] {
      assert a + b == b;
    } else {
      ContainedInSuffix(a[1..], b, p);
      assert (a + b)[1..] == a[1..] + b;
    }
  }

  /** A pattern placed anywhere in a string is contained in it. */
  lemma ContainsInfix(a: string, p: string, b: string)
    ensures Contains(a + p + b, p)
  {
    PrefixContained(p, b);
    ContainedInSuffix(a, p + b, p);
    assert a + p + b == a + (p + b);
  }

  /** ASCII lower-casing of one character; every other character is kept. */
  function LowerChar(c: char): char
  {
    if 'A' <= c <= 'Z' then (c as int - 'A' as int + 'a' as int) as char else c
  }

  /** `s.toLowerCase()` on ASCII letters: same length, each character lowered. */
  function ToLower(s: string): (r: string)
    ensures |r| == |s|
    ensures forall i :: 0 <= i < |s| ==> r[i] == LowerChar(s[i])
  {
    seq(|s|, i requires 0 <= i < |s| => LowerChar(s[i]))
  }

  /** Lower-casing is idempotent and leaves no upper-case ASCII letter behind. */
  lemma ToLowerIdempotent(s: string)
    ensures ToLower(ToLower(s)) == ToLower(s)
    ensures forall i :: 0 <= i < |s| ==> !('A' <= ToLower(s)[i] <= 'Z')
  {
  }
}
