/**
 * The descending sort every ranking copy performs in place on its result
 * array (`Array.prototype.sort` with `b - a`, PHP `usort` with `$b <=> $a`).
 * Elements only move left past strictly smaller keys, so equal keys keep
 * their input order, as the stable library sorts do.
 */
module Sorting {

  /** Keys never increase from left to right. */
  predicate SortedDescending<T>(s: seq<T>, key: T -> real)
  {
    forall i, j :: 0 <= i < j < |s| ==> key(s[i]) >= key(s[j])
  }

  /** Keys never increase over s[..n], except possibly just before position hole. */
  predicate SortedExcept<T>(s: seq<T>, n: nat, hole: nat, key: T -> real)
    requires n <= |s|
  {
    forall p, q :: 0 <= p < q < n && q != hole ==> key(s[p]) >= key(s[q])
  }

  /** Exchanges two adjacent elements. */
  method SwapDown<T>(a: array<T>, j: nat)
    requires 0 < j < a.Length
    modifies a
    ensures a[..] == old(a[..])[j - 1 := old(a[j])][j := old(a[j - 1])]
    ensures multiset(a[..]) == multiset(old(a[..]))
  {
    a[j - 1], a[j] := a[j], a[j - 1];
  }

  /** Sorts `a` by `key`, largest first; the result is a permutation of the input. */
  method SortDescending<T>(a: array<T>, key: T -> real)
    modifies a
    ensures SortedDescending(a[..], key)
    ensures multiset(a[..]) == multiset(old(a[..]))
  {
    var i := 0;
    while i < a.Length
      invariant 0 <= i <= a.Length
      invariant SortedExcept(a[..], i, i, key)
      invariant multiset(a[..]) == multiset(old(a[..]))
    {
      var j := i;
      while j > 0 && key(a[j - 1]) < key(a[j])
        invariant 0 <= j <= i
        invariant multiset(a[..]) == multiset(old(a[..]))
        invariant SortedExcept(a[..], i + 1, j, key)
        invariant 0 < j < i ==> key(a[j - 1]) >= key(a[j + 1])
      {
        ghost var before := a[..];
        SwapDown(a, j);
        SwapKeepsSortedExcept(before, a[..], i, j, key);
        j := j - 1;
      }
      i := i + 1;
    }
  }

  /** Moving the element at j one place left, past a smaller key, moves the hole with it. */
  lemma SwapKeepsSortedExcept<T>(s: seq<T>, t: seq<T>, i: nat, j: nat, key: T -> real)
    requires 0 < j <= i < |s|
    requires SortedExcept(s, i + 1, j, key)
    requires 0 < j < i ==> key(s[j - 1]) >= key(s[j + 1])
    requires key(s[j - 1]) < key(s[j])
    requires t == s[j - 1 := s[j]][j := s[j - 1]]
    ensures SortedExcept(t, i + 1, j - 1, key)
    ensures 0 < j - 1 < i ==> key(t[j - 2]) >= key(t[j])
  {
  }
}
