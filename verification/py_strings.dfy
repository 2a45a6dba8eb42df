/**
 * The Python string operations the core relies on: `str.split(sep)`, `sep.join(parts)`,
 * `''.join(parts)`, `reversed`, slicing with a non-negative bound, and `<` on strings.
 */
module PyStrings {

  /**
   * `s.split(sep)` for a non-empty separator: scan from the left, cut at every non-overlapping
   * occurrence of `sep`. There is always at least one part; `"".split(sep) == [""]`.
   */
  function Split(s: string, sep: string): (parts: seq<string>)
    requires sep != []
    ensures |parts| >= 1
    decreases |s|
  {
    if |s| == 0 then [""]
    else if sep <= s then [""] + Split(s[|sep|..], sep)
    else
      var rest := Split(s[1..], sep);
      [[s[0]] + rest[0]] + rest[1..]
  }

  /** `sep.join(parts)` for a non-empty list of parts. */
  function Join(parts: seq<string>, sep: string): string
    requires |parts| >= 1
    decreases |parts|
  {
    if |parts| == 1 then parts[0] else parts[0] + sep + Join(parts[1..], sep)
  }

  /** `''.join(parts)`. */
  function Concat(parts: seq<string>): string
    decreases |parts|
  {
    if parts == [] then "" else parts[0] + Concat(parts[1..])
  }

  /** `list(reversed(parts))`. */
  function Reverse<T>(xs: seq<T>): (r: seq<T>)
    ensures |r| == |xs|
    ensures forall i :: 0 <= i < |xs| ==> r[i] == xs[|xs| - 1 - i]
  {
    seq(|xs|, i requires 0 <= i < |xs| => xs[|xs| - 1 - i])
  }

  /** Number of occurrences of `c` in `s`. */
  function Count(s: string, c: char): nat
    decreases |s|
  {
    if s == [] then 0 else (if s[0] == c then 1 else 0) + Count(s[1..], c)
  }

  function SumLengths(parts: seq<string>): nat
    decreases |parts|
  {
    if parts == [] then 0 else |parts[0]| + SumLengths(parts[1..])
  }

  /** `s[n:]` for `n >= 0`: empty when `n` is past the end. */
  function SliceFrom(s: string, n: nat): string {
    if n <= |s| then s[n..] else ""
  }

  /** `s[:n]` for `n >= 0`: all of `s` when `n` is past the end. */
  function SliceTo(s: string, n: nat): string {
    if n <= |s| then s[..n] else s
  }

  /** The two slices at one bound split the string: `s[:n] + s[n:] == s`, the first at most `n` long. */
  lemma SlicesSplit(s: string, n: nat)
    ensures SliceTo(s, n) + SliceFrom(s, n) == s
    ensures |SliceTo(s, n)| == if n <= |s| then n else |s|
  {
  }

  // ----- split / join -----

  lemma JoinConsHead(c: char, parts: seq<string>, sep: string)
    requires |parts| >= 1
    ensures Join([[c] + parts[0]] + parts[1..], sep) == [c] + Join(parts, sep)
  {
    var ps := [[c] + parts[0]] + parts[1..];
    assert ps[1..] == parts[1..];
  }

  lemma JoinCons(p: string, parts: seq<string>, sep: string)
    requires |parts| >= 1
    ensures Join([p] + parts, sep) == p + sep + Join(parts, sep)
  {
    assert ([p] + parts)[1..] == parts;
  }

  lemma JoinSplitAtSep(s: string, sep: string)
    requires sep != [] && sep <= s
    requires Join(Split(s[|sep|..], sep), sep) == s[|sep|..]
    ensures Join(Split(s, sep), sep) == s
  {
    var rest := s[|sep|..];
    var parts := Split(rest, sep);
    assert s == sep + rest by { assert s[..|sep|] == sep; assert s == s[..|sep|] + rest; }
    calc {
      Join(Split(s, sep), sep);
      Join([""] + parts, sep);
      { JoinCons("", parts, sep); }
      "" + sep + Join(parts, sep);
      { assert "" + sep == sep; }
      sep + rest;
    }
  }

  lemma JoinSplitAtChar(s: string, sep: string)
    requires sep != [] && |s| > 0 && !(sep <= s)
    requires Join(Split(s[1..], sep), sep) == s[1..]
    ensures Join(Split(s, sep), sep) == s
  {
    var rest := Split(s[1..], sep);
    calc {
      Join(Split(s, sep), sep);
      Join([[s[0]] + rest[0]] + rest[1..], sep);
      { JoinConsHead(s[0], rest, sep); }
      [s[0]] + Join(rest, sep);
      [s[0]] + s[1..];
    }
  }

  /** Joining the parts of a split gives back the string: `sep.join(s.split(sep)) == s`. */
  lemma {:induction false} JoinSplit(s: string, sep: string)
    requires sep != []
    ensures Join(Split(s, sep), sep) == s
    decreases |s|
  {
    if |s| == 0 {
    } else if sep <= s {
      JoinSplit(s[|sep|..], sep);
      JoinSplitAtSep(s, sep);
    } else {
      JoinSplit(s[1..], sep);
      JoinSplitAtChar(s, sep);
    }
  }

  /** A string without the separator character splits into itself alone. */
  lemma {:induction false} SplitWithoutSep(s: string, c: char)
    requires c !in s
    ensures Split(s, [c]) == [s]
    decreases |s|
  {
    if |s| > 0 {
      assert !([c] <= s) by { assert s[0] != c; }
      assert c !in s[1..] by { assert forall x :: x in s[1..] ==> x in s; }
      SplitWithoutSep(s[1..], c);
      assert s == [s[0]] + s[1..];
    }
  }

  /** One step of a split at a character: a leading separator starts a new part, any other character joins the first part. */
  lemma SplitCharStep(s: string, c: char)
    requires |s| > 0
    ensures s[0] == c ==> Split(s, [c]) == [""] + Split(s[1..], [c])
    ensures s[0] != c ==> Split(s, [c]) == [[s[0]] + Split(s[1..], [c])[0]] + Split(s[1..], [c])[1..]
  {
    assert [c] <= s <==> s[0] == c;
    assert s[|[c]|..] == s[1..];
  }

  lemma ConsHeadAppend(x: char, a: seq<string>, b: seq<string>)
    requires |a| >= 1
    ensures [[x] + (a + b)[0]] + (a + b)[1..] == ([[x] + a[0]] + a[1..]) + b
  {
    assert (a + b)[0] == a[0];
    assert (a + b)[1..] == a[1..] + b;
  }

  /** Splitting at a separator character cuts the string into the splits of its two sides. */
  lemma {:induction false} SplitAppend(a: string, c: char, b: string)
    ensures Split(a + [c] + b, [c]) == Split(a, [c]) + Split(b, [c])
    decreases |a|
  {
    var s := a + [c] + b;
    SplitCharStep(s, c);
    if |a| == 0 {
      assert s[0] == c && s[1..] == b;
    } else {
      assert s[0] == a[0] && s[1..] == a[1..] + [c] + b;
      SplitAppend(a[1..], c, b);
      SplitCharStep(a, c);
      if a[0] != c {
        ConsHeadAppend(a[0], Split(a[1..], [c]), Split(b, [c]));
      }
    }
  }

  /** No part of a split at a character contains that character. */
  lemma {:induction false} SplitPartsWithoutSep(s: string, c: char)
    ensures forall p :: p in Split(s, [c]) ==> c !in p
    decreases |s|
  {
    if |s| > 0 {
      SplitPartsWithoutSep(s[1..], c);
      if !([c] <= s) {
        var rest := Split(s[1..], [c]);
        assert s[0] != c;
        assert c !in rest[0];
        assert c !in [s[0]] + rest[0];
        assert forall p :: p in rest[1..] ==> p in rest;
      }
    }
  }

  /** A split at a character has one more part than the string has separators. */
  lemma {:induction false} SplitCount(s: string, c: char)
    ensures |Split(s, [c])| == Count(s, c) + 1
    decreases |s|
  {
    if |s| > 0 {
      SplitCount(s[1..], c);
      if [c] <= s {
        assert s[0] == c;
        assert s[|[c]|..] == s[1..];
      } else {
        assert s[0] != c;
      }
    }
  }

  /** Splitting a join of separator-free parts gives the parts back. */
  lemma {:induction false} SplitJoin(parts: seq<string>, c: char)
    requires |parts| >= 1
    requires forall p :: p in parts ==> c !in p
    ensures Split(Join(parts, [c]), [c]) == parts
    decreases |parts|
  {
    if |parts| == 1 {
      SplitWithoutSep(parts[0], c);
    } else {
      assert forall p :: p in parts[1..] ==> p in parts;
      SplitJoin(parts[1..], c);
      SplitJoinStep(parts, c);
    }
  }

  lemma SplitJoinStep(parts: seq<string>, c: char)
    requires |parts| > 1 && c !in parts[0]
    requires Split(Join(parts[1..], [c]), [c]) == parts[1..]
    ensures Split(Join(parts, [c]), [c]) == parts
  {
    SplitWithoutSep(parts[0], c);
    SplitAppend(parts[0], c, Join(parts[1..], [c]));
    assert parts == [parts[0]] + parts[1..];
  }

  lemma {:induction false} JoinLength(parts: seq<string>, sep: string)
    requires |parts| >= 1
    ensures |Join(parts, sep)| == SumLengths(parts) + (|parts| - 1) * |sep|
    decreases |parts|
  {
    if |parts| > 1 {
      JoinLength(parts[1..], sep);
    }
  }

  /** The parts of a split at a character hold every character of the string but the separators. */
  lemma SplitSumLengths(s: string, c: char)
    ensures SumLengths(Split(s, [c])) == |s| - Count(s, c)
  {
    JoinSplit(s, [c]);
    JoinLength(Split(s, [c]), [c]);
    SplitCount(s, c);
  }

  lemma {:induction false} ConcatLength(parts: seq<string>)
    ensures |Concat(parts)| == SumLengths(parts)
    decreases |parts|
  {
    if parts != [] {
      ConcatLength(parts[1..]);
    }
  }

  lemma {:induction false} SumLengthsAppend(a: seq<string>, b: seq<string>)
    ensures SumLengths(a + b) == SumLengths(a) + SumLengths(b)
    decreases |a|
  {
    if a == [] {
      assert a + b == b;
    } else {
      assert (a + b)[0] == a[0] && (a + b)[1..] == a[1..] + b;
      SumLengthsAppend(a[1..], b);
    }
  }

  lemma {:induction false} SumLengthsReverse(parts: seq<string>)
    ensures SumLengths(Reverse(parts)) == SumLengths(parts)
    decreases |parts|
  {
    if parts != [] {
      assert Reverse(parts) == Reverse(parts[1..]) + [parts[0]];
      SumLengthsReverse(parts[1..]);
      SumLengthsAppend(Reverse(parts[1..]), [parts[0]]);
      assert SumLengths([parts[0]]) == |parts[0]| by { assert [parts[0]][1..] == []; }
    }
  }

  // ----- string ordering -----

  /** Python's `a < b` on strings: lexicographic by code point, a proper prefix sorting first. */
  predicate StrLess(a: string, b: string)
    decreases |a|
  {
    if |a| == 0 then |b| > 0
    else if |b| == 0 then false
    else if a[0] != b[0] then a[0] < b[0]
    else StrLess(a[1..], b[1..])
  }

  lemma {:induction false} StrLessIrreflexive(a: string)
    ensures !StrLess(a, a)
    decreases |a|
  {
    if |a| > 0 {
      StrLessIrreflexive(a[1..]);
    }
  }

  lemma {:induction false} StrLessTransitive(a: string, b: string, c: string)
    requires StrLess(a, b) && StrLess(b, c)
    ensures StrLess(a, c)
    decreases |a|
  {
    if |a| > 0 && a[0] == b[0] && b[0] == c[0] {
      StrLessTransitive(a[1..], b[1..], c[1..]);
    }
  }

  lemma {:induction false} StrLessTotal(a: string, b: string)
    requires a != b
    ensures StrLess(a, b) || StrLess(b, a)
    decreases |a|
  {
    if |a| > 0 && |b| > 0 && a[0] == b[0] {
      assert a == [a[0]] + a[1..] && b == [b[0]] + b[1..];
      StrLessTotal(a[1..], b[1..]);
    }
  }

  /** String `<` is a strict total order: irreflexive, transitive and total on distinct strings. */
  lemma StrLessIsStrictTotalOrder()
    ensures forall a :: !StrLess(a, a)
    ensures forall a, b, c :: StrLess(a, b) && StrLess(b, c) ==> StrLess(a, c)
    ensures forall a, b :: a != b ==> StrLess(a, b) || StrLess(b, a)
  {
    forall a ensures !StrLess(a, a) { StrLessIrreflexive(a); }
    forall a, b, c | StrLess(a, b) && StrLess(b, c) ensures StrLess(a, c) {
      StrLessTransitive(a, b, c);
    }
    forall a, b | a != b ensures StrLess(a, b) || StrLess(b, a) { StrLessTotal(a, b); }
  }
}
