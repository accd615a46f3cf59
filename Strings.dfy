/**
 * The JavaScript string and array built-ins the client relies on:
 * String.prototype.indexOf (substring search), Array.prototype.indexOf
 * (search by strict equality) and Array.prototype.join.
 */
module Strings {

  /** t occurs in s starting at position i. */
  predicate OccursAt(s: string, t: string, i: nat) {
    i <= |s| && t <= s[i..]
  }

  /** t is a substring of s. */
  predicate Contains(s: string, t: string) {
    exists i: nat :: i <= |s| && OccursAt(s, t, i)
  }

  /**
   * String.prototype.indexOf(t, from) for a start at most |s|. A start past
   * the end gives -1 here, where JavaScript clamps it to |s|; the client only
   * ever searches from 0.
   */
  function StringIndexOfFrom(s: string, t: string, from: nat): int
    decreases |s| - from
  {
    if from > |s| then -1
    else if t <= s[from..] then from
    else StringIndexOfFrom(s, t, from + 1)
  }

  /**
   * The search gives the first position at or after `from` where t occurs
   * in s, or -1 when there is none.
   */
  lemma {:induction false} StringIndexOfFromFirst(s: string, t: string, from: nat)
    decreases |s| - from
    ensures var r := StringIndexOfFrom(s, t, from);
      && (r == -1 || (from <= r && OccursAt(s, t, r)))
      && (r == -1 ==> forall i: nat :: from <= i ==> !OccursAt(s, t, i))
      && (r != -1 ==> forall i: nat :: from <= i < r ==> !OccursAt(s, t, i))
  {
    if from <= |s| && !(t <= s[from..]) {
      StringIndexOfFromFirst(s, t, from + 1);
    }
  }

  /** String.prototype.indexOf(t). */
  function StringIndexOf(s: string, t: string): int {
    StringIndexOfFrom(s, t, 0)
  }

  /** `s.indexOf(t) >= 0` is exactly the substring test. */
  lemma StringIndexOfFound(s: string, t: string)
    ensures StringIndexOf(s, t) >= 0 <==> Contains(s, t)
  {
    StringIndexOfFromFirst(s, t, 0);
    if Contains(s, t) {
      var i: nat :| i <= |s| && OccursAt(s, t, i);
      assert StringIndexOf(s, t) != -1;
    }
  }

  /** Array.prototype.indexOf(x). */
  function SeqIndexOf(a: seq<string>, x: string): int {
    if a == [] then -1
    else if a[0] == x then 0
    else var k := SeqIndexOf(a[1..], x); if k == -1 then -1 else k + 1
  }

  /** Array indexOf gives the first index holding x, or -1 exactly when x is absent. */
  lemma {:induction false} SeqIndexOfFirst(a: seq<string>, x: string)
    ensures var r := SeqIndexOf(a, x);
      && (r == -1 || (0 <= r < |a| && a[r] == x))
      && (r == -1 <==> x !in a)
      && (r != -1 ==> forall k :: 0 <= k < r ==> a[k] != x)
  {
    if a != [] && a[0] != x {
      SeqIndexOfFirst(a[1..], x);
      assert a == [a[0]] + a[1..];
    }
  }

  /** Array.prototype.join(sep) over strings. */
  function Join(parts: seq<string>, sep: string): string
  {
    if |parts| == 0 then ""
    else if |parts| == 1 then parts[0]
    else parts[0] + sep + Join(parts[1..], sep)
  }

  /** A string contains its own suffix. */
  lemma ContainsSuffix(a: string, t: string)
    ensures Contains(a + t, t)
  {
    assert (a + t)[|a|..] == t;
    assert OccursAt(a + t, t, |a|);
  }

  /** Appending to a string keeps what it contains. */
  lemma ContainsExtend(p: string, q: string, t: string)
    requires Contains(p, t)
    ensures Contains(p + q, t)
  {
    var i: nat :| i <= |p| && OccursAt(p, t, i);
    assert (p + q)[i..] == p[i..] + q;
    assert OccursAt(p + q, t, i);
  }

  /** Every string of the form a + t + b contains t. */
  lemma ContainsInfix(a: string, t: string, b: string)
    ensures Contains(a + t + b, t)
  {
    var s := a + t + b;
    assert s[|a|..] == t + b;
    assert OccursAt(s, t, |a|);
  }

  /** A text cannot contain t when one of t's characters does not occur in it. */
  lemma NotContainsChar(s: string, t: string, k: nat)
    requires k < |t| && t[k] !in s
    ensures !Contains(s, t)
  {
    forall i: nat | i <= |s| ensures !OccursAt(s, t, i) {
      if i + |t| <= |s| {
        assert s[i + k] in s;
        assert s[i..][k] != t[k];
      }
    }
  }
}
