/** Sequence helpers: order-preserving filters, sums and index permutations. */
module SeqUtil {

  /** `s.filter(p)`: the elements of `s` satisfying `p`, in their original order.
      Defined from the right so that it extends naturally as a loop appends. */
  function Filter<T>(s: seq<T>, p: T -> bool): (r: seq<T>)
    ensures |r| <= |s|
    decreases |s|
  {
    if s == [] then []
    else Filter(s[..|s| - 1], p) + (if p(s[|s| - 1]) then [s[|s| - 1]] else [])
  }

  /** The filter keeps exactly the elements of `s` that satisfy `p`. */
  lemma {:induction false} FilterMembers<T>(s: seq<T>, p: T -> bool)
    ensures forall i :: 0 <= i < |Filter(s, p)| ==> Filter(s, p)[i] in s && p(Filter(s, p)[i])
    ensures forall i :: 0 <= i < |s| && p(s[i]) ==> s[i] in Filter(s, p)
    decreases |s|
  {
    if s != [] {
      var init := s[..|s| - 1];
      FilterMembers(init, p);
      assert forall x :: x in init ==> x in s;
    }
  }

  /** Filtering a filtered sequence is filtering by the conjunction. */
  lemma {:induction false} FilterConj<T>(s: seq<T>, p: T -> bool, q: T -> bool, pq: T -> bool)
    requires forall x :: pq(x) == (p(x) && q(x))
    ensures Filter(Filter(s, p), q) == Filter(s, pq)
    decreases |s|
  {
    if s != [] {
      var init := s[..|s| - 1];
      FilterConj(init, p, q, pq);
      var x := s[|s| - 1];
      var fp := Filter(s, p);
      assert Filter(s, pq) == Filter(init, pq) + (if pq(x) then [x] else []);
      if p(x) {
        assert fp == Filter(init, p) + [x];
        assert fp[..|fp| - 1] == Filter(init, p);
        assert Filter(fp, q) == Filter(Filter(init, p), q) + (if q(x) then [x] else []);
      } else {
        assert fp == Filter(init, p);
      }
    }
  }

  /** Filters that agree on every element of `s` select the same subsequence. */
  lemma {:induction false} FilterAgree<T>(s: seq<T>, p: T -> bool, q: T -> bool)
    requires forall i :: 0 <= i < |s| ==> p(s[i]) == q(s[i])
    ensures Filter(s, p) == Filter(s, q)
    decreases |s|
  {
    if s != [] {
      FilterAgree(s[..|s| - 1], p, q);
    }
  }

  /** Filtering distributes over concatenation. */
  lemma {:induction false} FilterAppend<T>(a: seq<T>, b: seq<T>, p: T -> bool)
    ensures Filter(a + b, p) == Filter(a, p) + Filter(b, p)
    decreases |b|
  {
    if b != [] {
      var b' := b[..|b| - 1];
      assert (a + b)[..|a + b| - 1] == a + b';
      assert (a + b)[|a + b| - 1] == b[|b| - 1];
      FilterAppend(a, b', p);
      var x := b[|b| - 1];
      assert Filter(a + b, p) == Filter(a + b', p) + (if p(x) then [x] else []);
      assert Filter(b, p) == Filter(b', p) + (if p(x) then [x] else []);
    } else {
      assert a + b == a;
    }
  }

  /** Nothing passes, so nothing is kept. */
  lemma {:induction false} FilterNone<T>(s: seq<T>, p: T -> bool)
    requires forall i :: 0 <= i < |s| ==> !p(s[i])
    ensures Filter(s, p) == []
    decreases |s|
  {
    if s != [] {
      FilterNone(s[..|s| - 1], p);
    }
  }

  /** The filter is empty exactly when no element passes. */
  lemma FilterEmpty<T>(s: seq<T>, p: T -> bool)
    ensures Filter(s, p) == [] <==> forall i :: 0 <= i < |s| ==> !p(s[i])
  {
    if forall i :: 0 <= i < |s| ==> !p(s[i]) {
      FilterNone(s, p);
    } else {
      var i :| 0 <= i < |s| && p(s[i]);
      FilterMembers(s, p);
      assert s[i] in Filter(s, p);
    }
  }

  /** The filter of one more element. */
  lemma FilterSnoc<T>(s: seq<T>, x: T, p: T -> bool)
    ensures Filter(s + [x], p) == Filter(s, p) + (if p(x) then [x] else [])
  {
    assert (s + [x])[..|s + [x]| - 1] == s;
  }

  /** The sum of `f` over the elements of `s`. */
  function Sum<T>(s: seq<T>, f: T -> nat): nat
    decreases |s|
  {
    if s == [] then 0 else Sum(s[..|s| - 1], f) + f(s[|s| - 1])
  }

  lemma SumSnoc<T>(s: seq<T>, x: T, f: T -> nat)
    ensures Sum(s + [x], f) == Sum(s, f) + f(x)
  {
    assert (s + [x])[..|s + [x]| - 1] == s;
  }

  /** A pointwise bound on the summands bounds the sums. */
  lemma {:induction false} SumLe<T>(s: seq<T>, f: T -> nat, g: T -> nat)
    requires forall i :: 0 <= i < |s| ==> f(s[i]) <= g(s[i])
    ensures Sum(s, f) <= Sum(s, g)
    decreases |s|
  {
    if s != [] {
      SumLe(s[..|s| - 1], f, g);
    }
  }

  /** The sum over a prefix is at most the sum over the whole sequence. */
  lemma {:induction false} SumPrefix<T>(s: seq<T>, k: nat, f: T -> nat)
    requires k <= |s|
    ensures Sum(s[..k], f) <= Sum(s, f)
    decreases |s|
  {
    if k < |s| {
      assert s[..|s| - 1][..k] == s[..k];
      SumPrefix(s[..|s| - 1], k, f);
    } else {
      assert s[..k] == s;
    }
  }

  /** The indices 0 .. n-1 in increasing order. */
  function Range(n: nat): (r: seq<nat>)
    ensures |r| == n
    ensures forall i :: 0 <= i < n ==> r[i] == i
  {
    seq(n, i => i)
  }

  /** `perm` lists every index 0 .. n-1 exactly once: the order produced by a shuffle. */
  ghost predicate IsPermutation(perm: seq<nat>, n: nat) {
    multiset(perm) == multiset(Range(n))
  }

  /** The elements of `s` in the order given by `perm`. */
  function Permuted<T>(s: seq<T>, perm: seq<nat>): (r: seq<T>)
    requires forall i :: 0 <= i < |perm| ==> perm[i] < |s|
    ensures |r| == |perm|
    ensures forall i :: 0 <= i < |perm| ==> r[i] == s[perm[i]]
  {
    seq(|perm|, i requires 0 <= i < |perm| => s[perm[i]])
  }

  lemma RangeMembers(n: nat, x: nat)
    ensures x in multiset(Range(n)) <==> x < n
  {
    if x < n {
      assert Range(n)[x] == x;
    }
  }

  /** Every entry of a permutation of 0 .. n-1 is below n, and |perm| == n. */
  lemma PermutationBounds(perm: seq<nat>, n: nat)
    requires IsPermutation(perm, n)
    ensures |perm| == n
    ensures forall i :: 0 <= i < |perm| ==> perm[i] < n
  {
    assert |multiset(perm)| == |multiset(Range(n))|;
    forall i | 0 <= i < |perm| ensures perm[i] < n {
      assert perm[i] in multiset(perm);
      RangeMembers(n, perm[i]);
    }
  }

  lemma RangeSnoc(m: nat)
    ensures multiset(Range(m + 1)) == multiset(Range(m)) + multiset{m}
  {
    assert Range(m + 1) == Range(m) + [m];
  }

  lemma MultisetCancel<T>(a: multiset<T>, b: multiset<T>, x: T)
    requires a + multiset{x} == b + multiset{x}
    ensures a == b
  {
    forall y ensures a[y] == b[y] {
      assert (a + multiset{x})[y] == a[y] + multiset{x}[y];
      assert (b + multiset{x})[y] == b[y] + multiset{x}[y];
    }
  }

  /** Removing position j takes exactly one copy of s[j] out of the multiset. */
  lemma RemoveAt<T>(s: seq<T>, j: nat)
    requires j < |s|
    ensures multiset(s) == multiset(s[..j] + s[j + 1..]) + multiset{s[j]}
  {
    assert s == s[..j] + [s[j]] + s[j + 1..];
  }

  /** Inserting x at position j adds exactly one copy of x to the multiset. */
  lemma InsertAt<T>(s: seq<T>, j: nat, x: T)
    requires j <= |s|
    ensures multiset(s[..j] + [x] + s[j..]) == multiset(s) + multiset{x}
  {
    assert s == s[..j] + s[j..];
  }

  /** The position of the largest index n-1 in a permutation, and the permutation
      of 0 .. n-2 left when it is removed. */
  lemma RemoveLargest(perm: seq<nat>, n: nat) returns (j: nat)
    requires n > 0 && IsPermutation(perm, n)
    ensures j < |perm| == n && perm[j] == n - 1
    ensures IsPermutation(perm[..j] + perm[j + 1..], n - 1)
    ensures forall i :: 0 <= i < |perm| && i != j ==> perm[i] < n - 1
  {
    PermutationBounds(perm, n);
    RangeMembers(n, n - 1);
    j :| 0 <= j < |perm| && perm[j] == n - 1;
    var rest := perm[..j] + perm[j + 1..];
    var top: nat := n - 1;
    RemoveAt(perm, j);
    RangeSnoc(top);
    MultisetCancel(multiset(rest), multiset(Range(top)), top);
    OthersBelow(perm, j, top);
  }

  /** The entries other than position j lie below m when removing j leaves a
      permutation of 0 .. m-1. */
  lemma OthersBelow(perm: seq<nat>, j: nat, m: nat)
    requires j < |perm| && IsPermutation(perm[..j] + perm[j + 1..], m)
    ensures forall i :: 0 <= i < |perm| && i != j ==> perm[i] < m
  {
    var rest := perm[..j] + perm[j + 1..];
    PermutationBounds(rest, m);
    forall i | 0 <= i < |perm| && i != j ensures perm[i] < m {
      if i < j { assert rest[i] == perm[i]; } else { assert rest[i - 1] == perm[i]; }
    }
  }

  /** Permuting by `perm` is permuting the first n-1 elements by `rest` and
      putting the last element where n-1 stood. */
  lemma PermutedSplit<T>(s: seq<T>, perm: seq<nat>, j: nat)
    requires |s| > 0 && j < |perm|
    requires forall i :: 0 <= i < |perm| ==> perm[i] < |s|
    requires perm[j] == |s| - 1
    requires forall i :: 0 <= i < |perm| && i != j ==> perm[i] < |s| - 1
    ensures var rest := perm[..j] + perm[j + 1..];
            Permuted(s, perm) == Permuted(s[..|s| - 1], rest)[..j] + [s[|s| - 1]] + Permuted(s[..|s| - 1], rest)[j..]
  {
  }

  /** Inserting the last element of s into a reordering of the rest of s
      gives a reordering of s. */
  lemma Reassemble<T>(ps: seq<T>, pr: seq<T>, init: seq<T>, s: seq<T>, j: nat)
    requires |s| > 0 && init == s[..|s| - 1] && j <= |pr|
    requires ps == pr[..j] + [s[|s| - 1]] + pr[j..] && multiset(pr) == multiset(init)
    ensures multiset(ps) == multiset(s)
  {
    InsertAt(pr, j, s[|s| - 1]);
    assert s == init + [s[|s| - 1]];
  }

  /** Reordering by a permutation keeps exactly the same elements. */
  lemma {:induction false} PermutedMultiset<T>(s: seq<T>, perm: seq<nat>)
    requires IsPermutation(perm, |s|)
    ensures forall i :: 0 <= i < |perm| ==> perm[i] < |s|
    ensures multiset(Permuted(s, perm)) == multiset(s)
    decreases |s|
  {
    PermutationBounds(perm, |s|);
    if |s| > 0 {
      var n := |s|;
      var j := RemoveLargest(perm, n);
      var rest := perm[..j] + perm[j + 1..];
      var init := s[..n - 1];
      PermutedMultiset(init, rest);
      PermutedSplit(s, perm, j);
      Reassemble(Permuted(s, perm), Permuted(init, rest), init, s, j);
    }
  }
}
