/** Sequences that list the numbers below a bound. */
module Permutations {
  predicate Distinct<T(==)>(s: seq<T>) {
    forall i, j :: 0 <= i < j < |s| ==> s[i] != s[j]
  }

  /** Each of 0, ..., n - 1 once. */
  predicate IsPermutation(s: seq<int>, n: nat) {
    |s| == n && Distinct(s) && forall i :: 0 <= i < n ==> 0 <= s[i] < n
  }

  function Below(n: nat): set<int> {
    if n == 0 then {} else Below(n - 1) + {n - 1}
  }

  lemma {:induction false} BelowIs(n: nat)
    ensures |Below(n)| == n && forall x :: x in Below(n) <==> 0 <= x < n
  {
    if n > 0 {
      BelowIs(n - 1);
    }
  }

  function Elements<T>(s: seq<T>): set<T> {
    if s == [] then {} else Elements(s[..|s| - 1]) + {s[|s| - 1]}
  }

  lemma {:induction false} ElementsAre<T>(s: seq<T>)
    ensures forall x :: x in Elements(s) <==> x in s
    ensures |Elements(s)| <= |s|
    ensures Distinct(s) ==> |Elements(s)| == |s|
  {
    if s != [] {
      var last := |s| - 1;
      ElementsAre(s[..last]);
      assert forall x :: x in s <==> x in s[..last] || x == s[last];
      assert Distinct(s) ==> s[last] !in s[..last];
    }
  }

  lemma {:induction false} SubsetSize<T>(a: set<T>, b: set<T>)
    requires a <= b
    ensures |a| <= |b|
    ensures |a| == |b| ==> a == b
  {
    if a != {} {
      var x :| x in a;
      SubsetSize(a - {x}, b - {x});
      assert a - {x} == b - {x} ==> a == b;
    } else {
      assert |b| == 0 ==> b == {};
    }
  }

  /** The pigeonhole principle: `n` distinct numbers below `n` are all of them. */
  lemma PermutationCovers(s: seq<int>, n: nat, x: int)
    requires IsPermutation(s, n) && 0 <= x < n
    ensures x in s
  {
    BelowIs(n);
    ElementsAre(s);
    SubsetSize(Elements(s), Below(n));
  }

  /** Where `x` is in a permutation. */
  function Position(s: seq<int>, n: nat, x: int): (k: nat)
    requires IsPermutation(s, n) && 0 <= x < n
    ensures k < n && s[k] == x
  {
    PermutationCovers(s, n, x);
    var k :| 0 <= k < n && s[k] == x; k
  }
}
