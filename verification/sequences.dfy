/**
 * Generic list operations behind the comprehensions, dedup loops and `sorted(..., key=...)` calls
 * of the core: filtering (kept and rejected halves), order-preserving subsequences,
 * first-occurrence deduplication, and Python's stable sort by a key.
 * Recursive definitions peel the LAST element so that they match loops that grow a prefix.
 */
module Seqs {

  function Map<T, U>(xs: seq<T>, f: T -> U): (r: seq<U>)
    ensures |r| == |xs|
    ensures forall i :: 0 <= i < |xs| ==> r[i] == f(xs[i])
  {
    seq(|xs|, i requires 0 <= i < |xs| => f(xs[i]))
  }

  /** `[x for x in xs if p(x)]`. */
  function Filter<T>(xs: seq<T>, p: T -> bool): seq<T>
    decreases |xs|
  {
    if xs == [] then []
    else Filter(xs[..|xs| - 1], p) + (if p(xs[|xs| - 1]) then [xs[|xs| - 1]] else [])
  }

  /** `[x for x in xs if not p(x)]`. */
  function Reject<T>(xs: seq<T>, p: T -> bool): seq<T>
    decreases |xs|
  {
    if xs == [] then []
    else Reject(xs[..|xs| - 1], p) + (if p(xs[|xs| - 1]) then [] else [xs[|xs| - 1]])
  }

  predicate Distinct<T(==)>(xs: seq<T>) {
    forall i, j :: 0 <= i < j < |xs| ==> xs[i] != xs[j]
  }

  /** `xs` is `ys` with some elements left out, the rest kept in their order. */
  predicate IsSubsequence<T(==)>(xs: seq<T>, ys: seq<T>)
    decreases |ys|
  {
    if xs == [] then true
    else if ys == [] then false
    else
      (xs[|xs| - 1] == ys[|ys| - 1] && IsSubsequence(xs[..|xs| - 1], ys[..|ys| - 1]))
      || IsSubsequence(xs, ys[..|ys| - 1])
  }

  // ----- filter -----

  /** An element survives a filter exactly when it is in the input and satisfies the predicate. */
  lemma {:induction false} FilterMembers<T>(xs: seq<T>, p: T -> bool)
    ensures forall x :: x in Filter(xs, p) <==> x in xs && p(x)
    decreases |xs|
  {
    if xs != [] {
      var pre := xs[..|xs| - 1];
      FilterMembers(pre, p);
      assert xs == pre + [xs[|xs| - 1]];
    }
  }

  lemma {:induction false} FilterAppend<T>(a: seq<T>, b: seq<T>, p: T -> bool)
    ensures Filter(a + b, p) == Filter(a, p) + Filter(b, p)
    decreases |b|
  {
    if b == [] {
      assert a + b == a;
    } else {
      var n := |b|;
      assert (a + b)[..|a + b| - 1] == a + b[..n - 1];
      FilterAppend(a, b[..n - 1], p);
    }
  }

  lemma {:induction false} RejectAppend<T>(a: seq<T>, b: seq<T>, p: T -> bool)
    ensures Reject(a + b, p) == Reject(a, p) + Reject(b, p)
    decreases |b|
  {
    if b == [] {
      assert a + b == a;
    } else {
      var n := |b|;
      assert (a + b)[..|a + b| - 1] == a + b[..n - 1];
      RejectAppend(a, b[..n - 1], p);
    }
  }

  /** The kept and the rejected elements together are the input, counted with multiplicity. */
  lemma {:induction false} FilterRejectPermutation<T>(xs: seq<T>, p: T -> bool)
    ensures multiset(Filter(xs, p)) + multiset(Reject(xs, p)) == multiset(xs)
    decreases |xs|
  {
    if xs != [] {
      var pre, x := xs[..|xs| - 1], xs[|xs| - 1];
      FilterRejectPermutation(pre, p);
      assert xs == pre + [x];
      assert multiset(xs) == multiset(pre) + multiset{x};
      if p(x) {
        assert multiset(Filter(xs, p)) == multiset(Filter(pre, p)) + multiset{x};
        assert Reject(xs, p) == Reject(pre, p);
      } else {
        assert Filter(xs, p) == Filter(pre, p);
        assert multiset(Reject(xs, p)) == multiset(Reject(pre, p)) + multiset{x};
      }
    }
  }

  lemma {:induction false} RejectMembers<T>(xs: seq<T>, p: T -> bool)
    ensures forall x :: x in Reject(xs, p) <==> x in xs && !p(x)
    decreases |xs|
  {
    if xs != [] {
      var pre := xs[..|xs| - 1];
      RejectMembers(pre, p);
      assert xs == pre + [xs[|xs| - 1]];
    }
  }

  /** Filtering a list without repeats gives a list without repeats. */
  lemma {:induction false} FilterDistinct<T>(xs: seq<T>, p: T -> bool)
    requires Distinct(xs)
    ensures Distinct(Filter(xs, p))
    decreases |xs|
  {
    if xs != [] {
      var pre, last := xs[..|xs| - 1], xs[|xs| - 1];
      FilterDistinct(pre, p);
      FilterMembers(pre, p);
      assert last !in pre;
    }
  }

  // ----- subsequences -----

  lemma {:induction false} SubsequenceExtend<T>(xs: seq<T>, ys: seq<T>, y: T)
    requires IsSubsequence(xs, ys)
    ensures IsSubsequence(xs, ys + [y])
  {
    if xs != [] {
      assert (ys + [y])[..|ys|] == ys;
    }
  }

  lemma {:induction false} SubsequenceExtendBoth<T>(xs: seq<T>, ys: seq<T>, y: T)
    requires IsSubsequence(xs, ys)
    ensures IsSubsequence(xs + [y], ys + [y])
  {
    assert (xs + [y])[..|xs|] == xs;
    assert (ys + [y])[..|ys|] == ys;
  }

  lemma {:induction false} SubsequenceReflexive<T>(xs: seq<T>)
    ensures IsSubsequence(xs, xs)
    decreases |xs|
  {
    if xs != [] {
      var pre := xs[..|xs| - 1];
      SubsequenceReflexive(pre);
      SubsequenceExtendBoth(pre, pre, xs[|xs| - 1]);
      assert pre + [xs[|xs| - 1]] == xs;
    }
  }

  /** Every element of a subsequence comes from the sequence it was taken from. */
  lemma {:induction false} SubsequenceMembers<T>(xs: seq<T>, ys: seq<T>)
    requires IsSubsequence(xs, ys)
    ensures forall x :: x in xs ==> x in ys
    decreases |ys|
  {
    if xs != [] {
      var ypre := ys[..|ys| - 1];
      assert ys == ypre + [ys[|ys| - 1]];
      if xs[|xs| - 1] == ys[|ys| - 1] && IsSubsequence(xs[..|xs| - 1], ypre) {
        SubsequenceMembers(xs[..|xs| - 1], ypre);
        assert xs == xs[..|xs| - 1] + [xs[|xs| - 1]];
      } else {
        SubsequenceMembers(xs, ypre);
      }
    }
  }

  /** A filter keeps the order of what it keeps. */
  lemma {:induction false} FilterIsSubsequence<T>(xs: seq<T>, p: T -> bool)
    ensures IsSubsequence(Filter(xs, p), xs)
    decreases |xs|
  {
    if xs != [] {
      var pre, last := xs[..|xs| - 1], xs[|xs| - 1];
      FilterIsSubsequence(pre, p);
      assert xs == pre + [last];
      if p(last) {
        SubsequenceExtendBoth(Filter(pre, p), pre, last);
      } else {
        SubsequenceExtend(Filter(pre, p), pre, last);
        assert Filter(xs, p) == Filter(pre, p);
      }
    }
  }

  /** Mapping a function over both sides keeps a subsequence a subsequence. */
  lemma {:induction false} MapSubsequence<T, U>(xs: seq<T>, ys: seq<T>, f: T -> U)
    requires IsSubsequence(xs, ys)
    ensures IsSubsequence(Map(xs, f), Map(ys, f))
    decreases |ys|
  {
    if xs != [] {
      var xpre, ypre := xs[..|xs| - 1], ys[..|ys| - 1];
      assert Map(ys, f) == Map(ypre, f) + [f(ys[|ys| - 1])];
      if xs[|xs| - 1] == ys[|ys| - 1] && IsSubsequence(xpre, ypre) {
        MapSubsequence(xpre, ypre, f);
        assert Map(xs, f) == Map(xpre, f) + [f(xs[|xs| - 1])];
        SubsequenceExtendBoth(Map(xpre, f), Map(ypre, f), f(ys[|ys| - 1]));
      } else {
        MapSubsequence(xs, ypre, f);
        SubsequenceExtend(Map(xs, f), Map(ypre, f), f(ys[|ys| - 1]));
      }
    }
  }

  // ----- first-occurrence deduplication -----

  /** Keeps the first occurrence of every element, in order (the `if x not in seen: append` loop). */
  function Dedup<T(==)>(xs: seq<T>): seq<T>
    decreases |xs|
  {
    if xs == [] then []
    else
      var pre := xs[..|xs| - 1];
      Dedup(pre) + (if xs[|xs| - 1] in pre then [] else [xs[|xs| - 1]])
  }

  /** Deduplicating one more value appends it unless it was already there. */
  lemma DedupSnoc<T>(xs: seq<T>, x: T)
    ensures Dedup(xs + [x]) == Dedup(xs) + (if x in xs then [] else [x])
  {
    assert (xs + [x])[..|xs|] == xs;
  }

  /** Deduplicating one more value, given the deduplication of the others. */
  lemma DedupStep<T>(xs: seq<T>, x: T, dedup: seq<T>)
    requires dedup == Dedup(xs)
    ensures Dedup(xs + [x]) == dedup + (if x in dedup then [] else [x])
  {
    DedupSnoc(xs, x);
    DedupMembers(xs);
  }

  /** Mapping a list is mapping all but its last element, then the last. */
  lemma MapSnoc<T, U>(xs: seq<T>, f: T -> U)
    requires xs != []
    ensures Map(xs, f) == Map(xs[..|xs| - 1], f) + [f(xs[|xs| - 1])]
  {
  }

  /** Deduplication loses no value and adds none. */
  lemma {:induction false} DedupMembers<T>(xs: seq<T>)
    ensures forall x :: x in Dedup(xs) <==> x in xs
    decreases |xs|
  {
    if xs != [] {
      var pre := xs[..|xs| - 1];
      DedupMembers(pre);
      assert xs == pre + [xs[|xs| - 1]];
    }
  }

  /** Deduplication repeats no value. */
  lemma {:induction false} DedupDistinct<T>(xs: seq<T>)
    ensures Distinct(Dedup(xs))
    decreases |xs|
  {
    if xs != [] {
      var pre, last := xs[..|xs| - 1], xs[|xs| - 1];
      DedupDistinct(pre);
      DedupMembers(pre);
      if last !in pre {
        var d := Dedup(pre);
        assert Dedup(xs) == d + [last];
        assert last !in d;
      }
    }
  }

  /** Deduplication keeps the input's order. */
  lemma {:induction false} DedupSubsequence<T>(xs: seq<T>)
    ensures IsSubsequence(Dedup(xs), xs)
    decreases |xs|
  {
    if xs != [] {
      var pre, last := xs[..|xs| - 1], xs[|xs| - 1];
      DedupSubsequence(pre);
      assert xs == pre + [last];
      if last in pre {
        assert Dedup(xs) == Dedup(pre);
        SubsequenceExtend(Dedup(pre), pre, last);
      } else {
        SubsequenceExtendBoth(Dedup(pre), pre, last);
      }
    }
  }

  // ----- stable sort by key -----

  /** `lt` can drive a sort: it is asymmetric and "not less than" is transitive. */
  ghost predicate StrictWeakOrder<K(!new)>(lt: (K, K) -> bool) {
    && (forall a, b :: lt(a, b) ==> !lt(b, a))
    && (forall a, b, c :: !lt(a, b) && !lt(b, c) ==> !lt(a, c))
  }

  ghost predicate SortedBy<T, K>(xs: seq<T>, key: T -> K, lt: (K, K) -> bool) {
    forall i, j :: 0 <= i < j < |xs| ==> !lt(key(xs[j]), key(xs[i]))
  }

  /** Places `x` after the last element whose key is not greater than its own. */
  function InsertBy<T, K>(s: seq<T>, x: T, key: T -> K, lt: (K, K) -> bool): seq<T>
    decreases |s|
  {
    if s == [] then [x]
    else if !lt(key(x), key(s[|s| - 1])) then s + [x]
    else InsertBy(s[..|s| - 1], x, key, lt) + [s[|s| - 1]]
  }

  /** `sorted(xs, key=key)` with `lt` as `<` on keys: a stable insertion sort. */
  function SortBy<T, K>(xs: seq<T>, key: T -> K, lt: (K, K) -> bool): seq<T>
    decreases |xs|
  {
    if xs == [] then [] else InsertBy(SortBy(xs[..|xs| - 1], key, lt), xs[|xs| - 1], key, lt)
  }

  /** The elements whose key is `k`, in order. */
  function FilterKey<T, K(==)>(xs: seq<T>, key: T -> K, k: K): seq<T>
    decreases |xs|
  {
    if xs == [] then []
    else FilterKey(xs[..|xs| - 1], key, k) + (if key(xs[|xs| - 1]) == k then [xs[|xs| - 1]] else [])
  }

  lemma {:induction false} InsertByPermutation<T, K>(s: seq<T>, x: T, key: T -> K, lt: (K, K) -> bool)
    ensures multiset(InsertBy(s, x, key, lt)) == multiset(s) + multiset{x}
    decreases |s|
  {
    if s != [] && lt(key(x), key(s[|s| - 1])) {
      InsertByPermutation(s[..|s| - 1], x, key, lt);
      assert s == s[..|s| - 1] + [s[|s| - 1]];
    }
  }

  /** Sorting only reorders: the result is a permutation of the input. */
  lemma {:induction false} SortByPermutation<T, K>(xs: seq<T>, key: T -> K, lt: (K, K) -> bool)
    ensures multiset(SortBy(xs, key, lt)) == multiset(xs)
    decreases |xs|
  {
    if xs != [] {
      var pre := xs[..|xs| - 1];
      SortByPermutation(pre, key, lt);
      InsertByPermutation(SortBy(pre, key, lt), xs[|xs| - 1], key, lt);
      assert xs == pre + [xs[|xs| - 1]];
    }
  }

  lemma {:induction false} InsertBySorted<T, K(!new)>(s: seq<T>, x: T, key: T -> K, lt: (K, K) -> bool)
    requires StrictWeakOrder(lt) && SortedBy(s, key, lt)
    ensures SortedBy(InsertBy(s, x, key, lt), key, lt)
    decreases |s|
  {
    if s != [] {
      var pre, last := s[..|s| - 1], s[|s| - 1];
      if lt(key(x), key(last)) {
        InsertBySorted(pre, x, key, lt);
        var ins := InsertBy(pre, x, key, lt);
        InsertByPermutation(pre, x, key, lt);
        forall i | 0 <= i < |ins| ensures !lt(key(last), key(ins[i])) {
          assert ins[i] in multiset(ins);
          if ins[i] != x {
            assert ins[i] in multiset(pre);
            var j :| 0 <= j < |pre| && pre[j] == ins[i];
            assert s[j] == pre[j];
          }
        }
      }
    }
  }

  /** With a strict weak order on keys the sort yields ascending keys. */
  lemma {:induction false} SortBySorted<T, K(!new)>(xs: seq<T>, key: T -> K, lt: (K, K) -> bool)
    requires StrictWeakOrder(lt)
    ensures SortedBy(SortBy(xs, key, lt), key, lt)
    decreases |xs|
  {
    if xs != [] {
      SortBySorted(xs[..|xs| - 1], key, lt);
      InsertBySorted(SortBy(xs[..|xs| - 1], key, lt), xs[|xs| - 1], key, lt);
    }
  }

  lemma {:induction false} FilterKeyAppend<T, K>(a: seq<T>, b: seq<T>, key: T -> K, k: K)
    ensures FilterKey(a + b, key, k) == FilterKey(a, key, k) + FilterKey(b, key, k)
    decreases |b|
  {
    if b == [] {
      assert a + b == a;
    } else {
      var n := |b|;
      assert (a + b)[..|a + b| - 1] == a + b[..n - 1];
      FilterKeyAppend(a, b[..n - 1], key, k);
    }
  }

  /** Selecting by key from four lists laid end to end selects from each in turn. */
  lemma FilterKeyAppend4<T, K>(b0: seq<T>, b1: seq<T>, b2: seq<T>, b3: seq<T>, key: T -> K, k: K)
    ensures FilterKey(b0 + b1 + b2 + b3, key, k)
         == FilterKey(b0, key, k) + FilterKey(b1, key, k) + FilterKey(b2, key, k) + FilterKey(b3, key, k)
  {
    FilterKeyAppend(b0, b1, key, k);
    FilterKeyAppend(b0 + b1, b2, key, k);
    FilterKeyAppend(b0 + b1 + b2, b3, key, k);
  }

  /** When one of four lists selects `f` by key and the others select nothing, the four laid end to end select `f`. */
  lemma OneBlockSelects<T, K>(b0: seq<T>, b1: seq<T>, b2: seq<T>, b3: seq<T>, key: T -> K, k: K, f: seq<T>, g: int)
    requires 0 <= g <= 3
    requires FilterKey(b0, key, k) == (if g == 0 then f else []) && FilterKey(b1, key, k) == (if g == 1 then f else [])
    requires FilterKey(b2, key, k) == (if g == 2 then f else []) && FilterKey(b3, key, k) == (if g == 3 then f else [])
    ensures FilterKey(b0 + b1 + b2 + b3, key, k) == f
  {
    FilterKeyAppend4(b0, b1, b2, b3, key, k);
    OneOfFour(FilterKey(b0, key, k), FilterKey(b1, key, k), FilterKey(b2, key, k), FilterKey(b3, key, k), f, g);
  }

  lemma OneOfFour<T>(a0: seq<T>, a1: seq<T>, a2: seq<T>, a3: seq<T>, f: seq<T>, g: int)
    requires 0 <= g <= 3
    requires a0 == (if g == 0 then f else []) && a1 == (if g == 1 then f else [])
    requires a2 == (if g == 2 then f else []) && a3 == (if g == 3 then f else [])
    ensures a0 + a1 + a2 + a3 == f
  {
  }

  /** A list that keeps the head of another and rearranges its tail rearranges the whole. */
  lemma ConsParts<T>(xs: seq<T>, ys: seq<T>, tail: seq<T>)
    requires xs != [] && ys == [xs[0]] + tail
    ensures ys != [] && ys[0] == xs[0] && ys[1..] == tail
    ensures multiset(tail) == multiset(xs[1..]) ==> multiset(ys) == multiset(xs)
  {
    assert xs == [xs[0]] + xs[1..];
  }

  /** The images of the kept elements are exactly the images of the elements that pass. */
  lemma FilterMapMembers<T, U>(xs: seq<T>, p: T -> bool, f: T -> U)
    ensures forall v :: v in Map(Filter(xs, p), f) <==> exists x :: x in xs && p(x) && f(x) == v
  {
    FilterMembers(xs, p);
    var w := Filter(xs, p);
    forall v ensures v in Map(w, f) <==> exists x :: x in xs && p(x) && f(x) == v {
      if v in Map(w, f) {
        var k :| 0 <= k < |w| && Map(w, f)[k] == v;
        assert w[k] in w;
      }
      if exists x :: x in xs && p(x) && f(x) == v {
        var x :| x in xs && p(x) && f(x) == v;
        var k :| 0 <= k < |w| && w[k] == x;
        assert Map(w, f)[k] == v;
      }
    }
  }

  /** The values of `[y] + map(f, xs)`: `y` and the images of the elements of `xs`. */
  lemma ConsMapMembers<T, U>(y: U, xs: seq<T>, f: T -> U)
    ensures forall v :: v in [y] + Map(xs, f) <==> v == y || exists x :: x in xs && f(x) == v
  {
    var all := [y] + Map(xs, f);
    forall v ensures v in all <==> v == y || exists x :: x in xs && f(x) == v {
      if v in all && v != y {
        var k :| 0 <= k < |all| && all[k] == v;
        assert xs[k - 1] in xs;
      }
      if exists x :: x in xs && f(x) == v {
        var x :| x in xs && f(x) == v;
        var k :| 0 <= k < |xs| && xs[k] == x;
        assert all[k + 1] == v;
      }
    }
  }

  /** Reassembling a list split in two, and each half split in two again, gives back its elements. */
  lemma FourWaySplit<T>(b0: seq<T>, b1: seq<T>, b2: seq<T>, b3: seq<T>, left: seq<T>, right: seq<T>, whole: seq<T>)
    requires multiset(b0) + multiset(b1) == multiset(left)
    requires multiset(b2) + multiset(b3) == multiset(right)
    requires multiset(left) + multiset(right) == multiset(whole)
    ensures multiset(b0 + b1 + b2 + b3) == multiset(whole)
  {
    calc {
      multiset(b0 + b1 + b2 + b3);
      multiset(b0) + multiset(b1) + multiset(b2) + multiset(b3);
      multiset(left) + multiset(right);
    }
  }

  lemma {:induction false} InsertByStable<T, K>(s: seq<T>, x: T, key: T -> K, lt: (K, K) -> bool, k: K)
    requires !lt(k, k)
    ensures FilterKey(InsertBy(s, x, key, lt), key, k)
         == FilterKey(s, key, k) + (if key(x) == k then [x] else [])
    decreases |s|
  {
    if s == [] {
      assert [x][..0] == [];
    } else if !lt(key(x), key(s[|s| - 1])) {
      assert (s + [x])[..|s|] == s;
    } else {
      var pre, last := s[..|s| - 1], s[|s| - 1];
      var ins := InsertBy(pre, x, key, lt);
      InsertByStable(pre, x, key, lt, k);
      assert (ins + [last])[..|ins|] == ins;
      assert s == pre + [last];
      FilterKeyAppend(pre, [last], key, k);
      assert [last][..0] == [];
    }
  }

  /** Python's sort is stable: elements with equal keys keep their relative order. */
  lemma {:induction false} SortByStable<T, K>(xs: seq<T>, key: T -> K, lt: (K, K) -> bool, k: K)
    requires !lt(k, k)
    ensures FilterKey(SortBy(xs, key, lt), key, k) == FilterKey(xs, key, k)
    decreases |xs|
  {
    if xs != [] {
      var pre := xs[..|xs| - 1];
      SortByStable(pre, key, lt, k);
      InsertByStable(SortBy(pre, key, lt), xs[|xs| - 1], key, lt, k);
    }
  }

  /** Two sorted runs make a sorted run when no element of the second sorts before one of the first. */
  lemma SortedByAppend<T, K>(a: seq<T>, b: seq<T>, key: T -> K, lt: (K, K) -> bool)
    requires SortedBy(a, key, lt) && SortedBy(b, key, lt)
    requires forall i, j :: 0 <= i < |a| && 0 <= j < |b| ==> !lt(key(b[j]), key(a[i]))
    ensures SortedBy(a + b, key, lt)
  {
    var ab := a + b;
    forall i, j | 0 <= i < j < |ab| ensures !lt(key(ab[j]), key(ab[i])) {
      if j < |a| {
        assert ab[i] == a[i] && ab[j] == a[j];
      } else if i >= |a| {
        assert ab[i] == b[i - |a|] && ab[j] == b[j - |a|];
      } else {
        assert ab[i] == a[i] && ab[j] == b[j - |a|];
      }
    }
  }

  /** No element with key `k`: nothing is selected. */
  lemma {:induction false} FilterKeyNone<T, K>(xs: seq<T>, key: T -> K, k: K)
    requires forall x :: x in xs ==> key(x) != k
    ensures FilterKey(xs, key, k) == []
    decreases |xs|
  {
    if xs != [] {
      FilterKeyNone(xs[..|xs| - 1], key, k);
    }
  }

  /** A filter that keeps every element with key `k` does not change the elements with key `k`. */
  lemma {:induction false} FilterKeyOfFilter<T, K>(xs: seq<T>, p: T -> bool, key: T -> K, k: K)
    requires forall x :: x in xs && key(x) == k ==> p(x)
    ensures FilterKey(Filter(xs, p), key, k) == FilterKey(xs, key, k)
    decreases |xs|
  {
    if xs != [] {
      var pre := xs[..|xs| - 1];
      FilterKeyOfFilter(pre, p, key, k);
      var last := xs[|xs| - 1];
      assert xs[..|xs| - 1] == pre;
      if p(last) {
        FilterKeyAppend(Filter(pre, p), [last], key, k);
        assert [last][..0] == [];
      } else {
        assert key(last) != k;
        assert Filter(xs, p) == Filter(pre, p);
      }
    }
  }

  /** The same for a rejection that keeps every element with key `k`. */
  lemma {:induction false} FilterKeyOfReject<T, K>(xs: seq<T>, p: T -> bool, key: T -> K, k: K)
    requires forall x :: x in xs && key(x) == k ==> !p(x)
    ensures FilterKey(Reject(xs, p), key, k) == FilterKey(xs, key, k)
    decreases |xs|
  {
    if xs != [] {
      var pre := xs[..|xs| - 1];
      FilterKeyOfReject(pre, p, key, k);
      var last := xs[|xs| - 1];
      assert xs[..|xs| - 1] == pre;
      if !p(last) {
        FilterKeyAppend(Reject(pre, p), [last], key, k);
        assert [last][..0] == [];
      } else {
        assert key(last) != k;
        assert Reject(xs, p) == Reject(pre, p);
      }
    }
  }

  /** Selecting by one key or by another picks the same elements when the two tests agree. */
  lemma {:induction false} FilterKeyRekey<T, K1, K2>(xs: seq<T>, key1: T -> K1, k1: K1, key2: T -> K2, k2: K2)
    requires forall x :: x in xs ==> (key1(x) == k1 <==> key2(x) == k2)
    ensures FilterKey(xs, key1, k1) == FilterKey(xs, key2, k2)
    decreases |xs|
  {
    if xs != [] {
      FilterKeyRekey(xs[..|xs| - 1], key1, k1, key2, k2);
    }
  }
}
