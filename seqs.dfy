/**
 * Sequence operations shared by the models: filtering (a list comprehension with a
 * condition), counting distinct keys in first-occurrence order (what an insertion-ordered
 * dictionary built by a loop holds), and duplicate-free sequences (what a `Set` holds).
 */
module Seqs {

  /** No element occurs twice. */
  ghost predicate NoDuplicates<T>(s: seq<T>) {
    forall i, j :: 0 <= i < j < |s| ==> s[i] != s[j]
  }

  /** `a` can be obtained from `b` by deleting elements: an order-preserving sub-list. */
  ghost predicate IsSubsequence<T>(a: seq<T>, b: seq<T>)
    decreases |b|
  {
    a == [] ||
    (b != [] &&
     ((a[|a| - 1] == b[|b| - 1] && IsSubsequence(a[..|a| - 1], b[..|b| - 1])) ||
      IsSubsequence(a, b[..|b| - 1])))
  }

  /** The elements of `s` that satisfy `p`, in their order in `s`. */
  function Filter<T(!new)>(s: seq<T>, p: T -> bool): (r: seq<T>)
    ensures |r| <= |s|
    ensures forall x :: x in r <==> x in s && p(x)
  {
    if s == [] then []
    else
      var init := Filter(s[..|s| - 1], p);
      assert forall x :: x in s <==> x in s[..|s| - 1] || x == s[|s| - 1];
      if p(s[|s| - 1]) then init + [s[|s| - 1]] else init
  }

  /** Filtering appends the new last element exactly when it satisfies the condition. */
  lemma FilterSnoc<T(!new)>(s: seq<T>, x: T, p: T -> bool)
    ensures Filter(s + [x], p) == if p(x) then Filter(s, p) + [x] else Filter(s, p)
  {
    assert (s + [x])[..|s|] == s;
  }

  lemma {:induction false} FilterIsSubsequence<T(!new)>(s: seq<T>, p: T -> bool)
    ensures IsSubsequence(Filter(s, p), s)
  {
    if s != [] {
      var init := s[..|s| - 1];
      FilterIsSubsequence(init, p);
      var r := Filter(s, p);
      if p(s[|s| - 1]) {
        assert r[..|r| - 1] == Filter(init, p);
      }
    }
  }

  /** Keeping everything leaves the sequence as it was. */
  lemma {:induction false} FilterKeepsAll<T(!new)>(s: seq<T>, p: T -> bool)
    requires forall x :: x in s ==> p(x)
    ensures Filter(s, p) == s
  {
    if s != [] {
      FilterKeepsAll(s[..|s| - 1], p);
      assert s[..|s| - 1] + [s[|s| - 1]] == s;
    }
  }

  /** Two successive filters are one filter by the conjunction of their conditions. */
  lemma {:induction false} FilterFusion<T(!new)>(s: seq<T>, p: T -> bool, q: T -> bool, pq: T -> bool)
    requires forall x :: pq(x) == (p(x) && q(x))
    ensures Filter(Filter(s, p), q) == Filter(s, pq)
  {
    if s != [] {
      var init, x := s[..|s| - 1], s[|s| - 1];
      FilterFusion(init, p, q, pq);
      if p(x) {
        FilterSnoc(Filter(init, p), x, q);
      }
    }
  }

  /** Conditions that agree on the elements of `s` filter it alike. */
  lemma {:induction false} FilterExtensional<T(!new)>(s: seq<T>, p: T -> bool, q: T -> bool)
    requires forall x :: x in s ==> p(x) == q(x)
    ensures Filter(s, p) == Filter(s, q)
  {
    if s != [] {
      var init := s[..|s| - 1];
      assert forall x :: x in init ==> x in s;
      FilterExtensional(init, p, q);
    }
  }

  /** Filtering a duplicate-free sequence leaves it duplicate-free. */
  lemma {:induction false} FilterNoDuplicates<T(!new)>(s: seq<T>, p: T -> bool)
    ensures NoDuplicates(s) ==> NoDuplicates(Filter(s, p))
  {
    if s != [] && NoDuplicates(s) {
      var init := s[..|s| - 1];
      FilterNoDuplicates(init, p);
      assert s[|s| - 1] !in init;
    }
  }

  /** The distinct elements of `s`, each at its first occurrence. */
  function Distinct<T(==,!new)>(s: seq<T>): (r: seq<T>)
    ensures NoDuplicates(r)
    ensures forall x :: x in r <==> x in s
  {
    if s == [] then []
    else
      var d := Distinct(s[..|s| - 1]);
      assert forall x :: x in s <==> x in s[..|s| - 1] || x == s[|s| - 1];
      if s[|s| - 1] in d then d else d + [s[|s| - 1]]
  }

  /**
   * First-seen order: of two elements of `Distinct(s)`, the earlier one occurs in `s`
   * before any occurrence of the later one.
   */
  lemma {:induction false} DistinctFirstSeen<T(!new)>(s: seq<T>, a: nat, b: nat)
    requires a < b < |Distinct(s)|
    ensures exists i :: 0 <= i < |s| && s[i] == Distinct(s)[a] &&
              forall j :: 0 <= j <= i ==> s[j] != Distinct(s)[b]
  {
    var init, x := s[..|s| - 1], s[|s| - 1];
    var d := Distinct(init);
    assert s == init + [x];
    if x in d || b < |d| {
      DistinctFirstSeen(init, a, b);
      var i :| 0 <= i < |init| && init[i] == d[a] && forall j :: 0 <= j <= i ==> init[j] != d[b];
      assert s[i] == init[i];
    } else {
      assert Distinct(s) == d + [x] && Distinct(s)[b] == x;
      assert d[a] in d;
      var i :| 0 <= i < |init| && init[i] == d[a];
      assert x !in init;
      forall j | 0 <= j <= i ensures s[j] != x {
        assert s[j] == init[j];
      }
    }
  }

  lemma DistinctSnoc<T(!new)>(s: seq<T>, x: T)
    ensures Distinct(s + [x]) == if x in Distinct(s) then Distinct(s) else Distinct(s) + [x]
  {
    assert (s + [x])[..|s|] == s;
  }

  /** The multiplicities in `m` of the keys, added up. */
  function SumCounts<T(==)>(keys: seq<T>, m: multiset<T>): nat {
    if keys == [] then 0 else SumCounts(keys[..|keys| - 1], m) + m[keys[|keys| - 1]]
  }

  /** Adding one `x` adds one to the sum exactly when `x` is one of the (distinct) keys. */
  lemma {:induction false} SumCountsAdd<T(!new)>(keys: seq<T>, m: multiset<T>, x: T)
    requires NoDuplicates(keys)
    ensures SumCounts(keys, m + multiset{x}) == SumCounts(keys, m) + (if x in keys then 1 else 0)
  {
    if keys != [] {
      var init := keys[..|keys| - 1];
      SumCountsAdd(init, m, x);
      assert x == keys[|keys| - 1] ==> x !in init;
      assert x in keys <==> x in init || x == keys[|keys| - 1];
    }
  }

  /** The occurrence counts of the distinct elements add up to the length. */
  lemma {:induction false} CountsSumToLength<T(!new)>(s: seq<T>)
    ensures SumCounts(Distinct(s), multiset(s)) == |s|
  {
    if s != [] {
      var init, x := s[..|s| - 1], s[|s| - 1];
      assert s == init + [x];
      CountsSumToLength(init);
      var d := Distinct(init);
      SumCountsAdd(d, multiset(init), x);
      if x !in d {
        assert multiset(init)[x] == 0;
        assert Distinct(s)[..|Distinct(s)| - 1] == d;
      }
    }
  }

  /** Every element satisfying `p` occurs in the filtered sequence as often as in `s`. */
  lemma {:induction false} FilterCount<T(!new)>(s: seq<T>, p: T -> bool, x: T)
    requires p(x)
    ensures multiset(Filter(s, p))[x] == multiset(s)[x]
  {
    if s != [] {
      var init := s[..|s| - 1];
      FilterCount(init, p, x);
      assert s == init + [s[|s| - 1]];
    }
  }
}
