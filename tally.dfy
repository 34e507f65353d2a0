/** Counting the elements of a sequence that satisfy a test. Every histogram
    the analyser builds is such a count over the token stream. */
module Tally {

  /** Defined from the back, so that a scan that has read `s[..i]` and then
      reads `s[i]` adds exactly one term. */
  function CountIf<T>(s: seq<T>, p: T -> bool): nat {
    if s == [] then 0
    else CountIf(s[..|s| - 1], p) + (if p(s[|s| - 1]) then 1 else 0)
  }

  lemma {:induction false} CountIfBound<T>(s: seq<T>, p: T -> bool)
    ensures CountIf(s, p) <= |s|
  {
    if s != [] {
      CountIfBound(s[..|s| - 1], p);
    }
  }

  lemma {:induction false} CountIfAppend<T>(a: seq<T>, b: seq<T>, p: T -> bool)
    ensures CountIf(a + b, p) == CountIf(a, p) + CountIf(b, p)
    decreases |b|
  {
    if b != [] {
      assert (a + b)[..|a + b| - 1] == a + b[..|b| - 1];
      CountIfAppend(a, b[..|b| - 1], p);
    } else {
      assert a + b == a;
    }
  }

  /** One step of a forward scan. */
  lemma CountIfStep<T>(s: seq<T>, i: nat, p: T -> bool)
    requires i < |s|
    ensures CountIf(s[..i + 1], p) == CountIf(s[..i], p) + (if p(s[i]) then 1 else 0)
  {
    assert s[..i + 1][..i] == s[..i];
  }

  /** Taking out one element takes out its term of the count. */
  lemma CountIfMiddle<T>(left: seq<T>, x: T, right: seq<T>, p: T -> bool)
    ensures CountIf(left + [x] + right, p) == CountIf(left + right, p) + (if p(x) then 1 else 0)
  {
    CountIfAppend(left + [x], right, p);
    assert (left + [x])[..|left|] == left;
    CountIfAppend(left, right, p);
  }

  lemma MultisetRemove<T>(b: seq<T>, j: nat)
    requires j < |b|
    ensures multiset(b[..j] + b[j + 1..]) == multiset(b) - multiset{b[j]}
  {
    assert b == (b[..j] + [b[j]]) + b[j + 1..];
  }

  /** The count depends only on which elements occur how often, not on their order. */
  lemma {:induction false} CountIfPermutation<T>(a: seq<T>, b: seq<T>, p: T -> bool)
    requires multiset(a) == multiset(b)
    ensures CountIf(a, p) == CountIf(b, p)
    decreases |a|
  {
    if a == [] {
      assert b == [];
    } else {
      var x := a[|a| - 1];
      assert x in multiset(b);
      var j :| 0 <= j < |b| && b[j] == x;
      assert b == b[..j] + [x] + b[j + 1..];
      CountIfMiddle(b[..j], x, b[j + 1..], p);
      MultisetRemove(b, j);
      assert a == a[..|a| - 1] + [x];
      assert multiset(a[..|a| - 1]) == multiset(a) - multiset{x};
      CountIfPermutation(a[..|a| - 1], b[..j] + b[j + 1..], p);
    }
  }
}
