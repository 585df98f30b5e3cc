/** The array operations the components build on: `Array.prototype.filter`,
    `slice(0, n)`, and `Array.from(new Set(xs))` (first occurrences, in order),
    with the order-preservation facts they share. */
module Seqs {
  import opened Basics

  /** `a` can be obtained from `b` by deleting elements: order is kept. */
  predicate IsSubsequence<T(==)>(a: seq<T>, b: seq<T>)
    decreases |b|
  {
    if a == [] then true
    else if b == [] then false
    else (a[0] == b[0] && IsSubsequence(a[1..], b[1..])) || IsSubsequence(a, b[1..])
  }

  /** No element occurs twice. */
  predicate NoDup<T(==)>(s: seq<T>)
  {
    forall i, j :: 0 <= i < j < |s| ==> s[i] != s[j]
  }

  /** `s.filter(p)`: the elements satisfying `p`, each with all its
      occurrences, in their original order. */
  function Filter<T(!new)>(s: seq<T>, p: T -> bool): (r: seq<T>)
    ensures |r| <= |s|
  {
    if s == [] then []
    else
      var rest := Filter(s[1..], p);
      if p(s[0]) then [s[0]] + rest else rest
  }

  /** Every kept element satisfies `p`, and the kept values are exactly the
      values of `s` that satisfy `p`. */
  lemma {:induction false} FilterMembers<T(!new)>(s: seq<T>, p: T -> bool)
    ensures forall i :: 0 <= i < |Filter(s, p)| ==> p(Filter(s, p)[i])
    ensures forall x :: x in Filter(s, p) <==> x in s && p(x)
  {
    if s != [] {
      FilterMembers(s[1..], p);
      assert s == [s[0]] + s[1..];
      var rest := Filter(s[1..], p);
      if p(s[0]) {
        assert forall i :: 1 <= i < |Filter(s, p)| ==> Filter(s, p)[i] == rest[i - 1];
      }
    }
  }

  /** When no element satisfies the predicate, the filter keeps nothing. */
  lemma {:induction false} FilterNone<T(!new)>(s: seq<T>, p: T -> bool)
    requires forall i :: 0 <= i < |s| ==> !p(s[i])
    ensures Filter(s, p) == []
  {
    if s != [] {
      FilterNone(s[1..], p);
    }
  }

  /** When exactly one position satisfies the predicate, the filter keeps
      that element alone. */
  lemma {:induction false} FilterSingle<T(!new)>(s: seq<T>, p: T -> bool, i: int)
    requires 0 <= i < |s| && p(s[i])
    requires forall j :: 0 <= j < |s| && j != i ==> !p(s[j])
    ensures Filter(s, p) == [s[i]]
  {
    var rest := Filter(s[1..], p);
    if i == 0 {
      FilterNone(s[1..], p);
    } else {
      FilterSingle(s[1..], p, i - 1);
    }
  }

  /** The kept elements form a subsequence of the input. */
  lemma {:induction false} FilterIsSubsequence<T(!new)>(s: seq<T>, p: T -> bool)
    ensures IsSubsequence(Filter(s, p), s)
  {
    if s != [] {
      FilterIsSubsequence(s[1..], p);
      var rest := Filter(s[1..], p);
      if p(s[0]) {
        assert ([s[0]] + rest)[1..] == rest;
      } else {
        SubsequenceDropFront(rest, s);
      }
    }
  }

  /** Each value satisfying `p` keeps all its occurrences; the others have none. */
  lemma {:induction false} FilterMultiset<T(!new)>(s: seq<T>, p: T -> bool)
    ensures forall x :: multiset(Filter(s, p))[x] == if p(x) then multiset(s)[x] else 0
  {
    if s != [] {
      FilterMultiset(s[1..], p);
      assert s == [s[0]] + s[1..];
    }
  }

  /** When every element satisfies `p`, nothing is dropped. */
  lemma {:induction false} FilterKeepsAll<T(!new)>(s: seq<T>, p: T -> bool)
    requires forall i :: 0 <= i < |s| ==> p(s[i])
    ensures Filter(s, p) == s
  {
    if s != [] {
      FilterKeepsAll(s[1..], p);
      assert s == [s[0]] + s[1..];
    }
  }

  /** Filtering keeps a front part that passes and drops a tail that fails. */
  lemma FilterKeepsFrontDropsTail<T(!new)>(a: seq<T>, b: seq<T>, p: T -> bool)
    requires forall i :: 0 <= i < |a| ==> p(a[i])
    requires forall x :: x in b ==> !p(x)
    ensures Filter(a + b, p) == a
  {
    FilterAppend(a, b, p);
    FilterKeepsAll(a, p);
    FilterNone(b, p);
  }

  /** Filtering a sequence with a given first element. */
  lemma FilterCons<T(!new)>(x: T, s: seq<T>, p: T -> bool)
    ensures Filter([x] + s, p) == (if p(x) then [x] else []) + Filter(s, p)
  {
    assert ([x] + s)[0] == x && ([x] + s)[1..] == s;
  }

  /** Filtering a concatenation filters each part. */
  lemma {:induction false} FilterAppend<T(!new)>(a: seq<T>, b: seq<T>, p: T -> bool)
    ensures Filter(a + b, p) == Filter(a, p) + Filter(b, p)
  {
    if a == [] {
      assert a + b == b;
    } else {
      var head: seq<T> := if p(a[0]) then [a[0]] else [];
      calc {
        Filter(a + b, p);
        { assert a + b == [a[0]] + (a[1..] + b); }
        Filter([a[0]] + (a[1..] + b), p);
        { FilterCons(a[0], a[1..] + b, p); }
        head + Filter(a[1..] + b, p);
        { FilterAppend(a[1..], b, p); }
        head + (Filter(a[1..], p) + Filter(b, p));
        (head + Filter(a[1..], p)) + Filter(b, p);
        { assert a == [a[0]] + a[1..]; FilterCons(a[0], a[1..], p); }
        Filter(a, p) + Filter(b, p);
      }
    }
  }

  /** Every element of a subsequence is an element of the whole. */
  lemma {:induction false} SubsequenceMember<T>(a: seq<T>, b: seq<T>, i: int)
    requires IsSubsequence(a, b)
    requires 0 <= i < |a|
    ensures a[i] in b
    decreases |b|
  {
    if a[0] == b[0] && IsSubsequence(a[1..], b[1..]) {
      if i > 0 {
        SubsequenceMember(a[1..], b[1..], i - 1);
        assert a[i] == a[1..][i - 1];
      }
    } else {
      SubsequenceMember(a, b[1..], i);
    }
  }

  /** A subsequence of the tail is a subsequence of the whole. */
  lemma {:induction false} SubsequenceDropFront<T>(a: seq<T>, b: seq<T>)
    requires b != []
    requires IsSubsequence(a, b[1..])
    ensures IsSubsequence(a, b)
  {
  }

  /** Every prefix of a subsequence is still a subsequence. */
  lemma {:induction false} SubsequencePrefix<T>(a: seq<T>, b: seq<T>, k: nat)
    requires IsSubsequence(a, b)
    requires k <= |a|
    ensures IsSubsequence(a[..k], b)
    decreases |b|
  {
    if k == 0 {
    } else if a[0] == b[0] && IsSubsequence(a[1..], b[1..]) {
      SubsequencePrefix(a[1..], b[1..], k - 1);
      assert a[..k][1..] == a[1..][..k - 1];
    } else {
      SubsequencePrefix(a, b[1..], k);
    }
  }

  /** Every sequence is a subsequence of itself. */
  lemma {:induction false} SubsequenceReflexive<T>(s: seq<T>)
    ensures IsSubsequence(s, s)
  {
    if s != [] {
      SubsequenceReflexive(s[1..]);
    }
  }

  /** `s.slice(0, n)`. */
  function Take<T>(s: seq<T>, n: nat): (r: seq<T>)
    ensures |r| == Min(n, |s|)
    ensures r == s[..|r|]
  {
    s[..Min(n, |s|)]
  }

  /** `Array.from(new Set(s))`: each value once, at its first occurrence. */
  function Dedup<T(==,!new)>(s: seq<T>): (r: seq<T>)
    ensures NoDup(r)
    ensures forall x :: x in r <==> x in s
    ensures |r| <= |s|
  {
    if s == [] then []
    else
      var init := s[..|s| - 1];
      var last := s[|s| - 1];
      assert s == init + [last];
      var d := Dedup(init);
      if last in init then d else d + [last]
  }

  /** `s.indexOf(x)` for a value that occurs: the position of its first
      occurrence. */
  function FirstIndex<T(==)>(s: seq<T>, x: T): (r: nat)
    requires x in s
    ensures r < |s| && s[r] == x
    ensures forall k :: 0 <= k < r ==> s[k] != x
  {
    if s[0] == x then 0 else 1 + FirstIndex(s[1..], x)
  }

  /** A value of the front part is first found in the front part. */
  lemma FirstIndexPrefix<T>(a: seq<T>, b: seq<T>, x: T)
    requires x in a
    ensures FirstIndex(a + b, x) == FirstIndex(a, x)
  {
    assert (a + b)[FirstIndex(a, x)] == x;
  }

  /** A value absent from `s` that is appended is first found at the end. */
  lemma FirstIndexLast<T>(s: seq<T>, x: T)
    requires x !in s
    ensures FirstIndex(s + [x], x) == |s|
  {
    assert (s + [x])[|s|] == x;
  }

  /** A subsequence stays one when the whole grows at the end. */
  lemma {:induction false} SubsequenceExtend<T>(a: seq<T>, b: seq<T>, x: T)
    requires IsSubsequence(a, b)
    ensures IsSubsequence(a, b + [x])
    decreases |b|
  {
    if a != [] {
      assert (b + [x])[1..] == b[1..] + [x];
      if a[0] == b[0] && IsSubsequence(a[1..], b[1..]) {
        SubsequenceExtend(a[1..], b[1..], x);
      } else {
        SubsequenceExtend(a, b[1..], x);
      }
    }
  }

  /** Appending the same element to both keeps the subsequence relation. */
  lemma {:induction false} SubsequenceAppendBoth<T>(a: seq<T>, b: seq<T>, x: T)
    requires IsSubsequence(a, b)
    ensures IsSubsequence(a + [x], b + [x])
    decreases |b|
  {
    if b == [] {
      assert a == [];
      assert ([x] + [])[1..] == [];
    } else {
      assert (b + [x])[1..] == b[1..] + [x];
      if a != [] && a[0] == b[0] && IsSubsequence(a[1..], b[1..]) {
        SubsequenceAppendBoth(a[1..], b[1..], x);
        assert (a + [x])[1..] == a[1..] + [x];
      } else {
        SubsequenceAppendBoth(a, b[1..], x);
        SubsequenceDropFront(a + [x], b + [x]);
      }
    }
  }

  /** `Array.from(new Set(s))` lists the values in the order of their first
      occurrences in `s`, as a subsequence of `s`. With `NoDup` and the same
      values (the contract of `Dedup`), this fixes the result completely. */
  lemma {:induction false} DedupSpec<T(!new)>(s: seq<T>)
    ensures IsSubsequence(Dedup(s), s)
    ensures forall i, j :: 0 <= i < j < |Dedup(s)| ==>
      Dedup(s)[i] in s && Dedup(s)[j] in s && FirstIndex(s, Dedup(s)[i]) < FirstIndex(s, Dedup(s)[j])
  {
    var r := Dedup(s);
    if s != [] {
      var init := s[..|s| - 1];
      var last := s[|s| - 1];
      assert s == init + [last];
      var d := Dedup(init);
      DedupSpec(init);
      forall k | 0 <= k < |d| ensures d[k] in init && FirstIndex(s, d[k]) == FirstIndex(init, d[k]) {
        assert d[k] in d;
        FirstIndexPrefix(init, [last], d[k]);
      }
      if last in init {
        SubsequenceExtend(d, init, last);
      } else {
        SubsequenceAppendBoth(d, init, last);
        FirstIndexLast(init, last);
        assert r == d + [last];
        forall i, j | 0 <= i < j < |r|
          ensures r[i] in s && r[j] in s && FirstIndex(s, r[i]) < FirstIndex(s, r[j])
        {
          if j == |d| {
            assert r[i] == d[i];
          } else {
            assert r[i] == d[i] && r[j] == d[j];
          }
        }
      }
    }
  }

  /** A duplicate-free sequence is its own deduplication. */
  lemma {:induction false} DedupNoDup<T(!new)>(s: seq<T>)
    requires NoDup(s)
    ensures Dedup(s) == s
  {
    if s != [] {
      var init := s[..|s| - 1];
      assert NoDup(init);
      DedupNoDup(init);
      assert s == init + [s[|s| - 1]];
    }
  }

  /** Deduplicating `a + b` for a duplicate-free `a` keeps `a` as a prefix and
      appends only values of `b` that `a` lacks. */
  lemma {:induction false} DedupAppend<T(!new)>(a: seq<T>, b: seq<T>)
    requires NoDup(a)
    ensures |Dedup(a + b)| >= |a|
    ensures Dedup(a + b)[..|a|] == a
    ensures forall x :: x in Dedup(a + b)[|a|..] ==> x in b && x !in a
  {
    if b == [] {
      assert a + b == a;
      DedupNoDup(a);
    } else {
      var b' := b[..|b| - 1];
      DedupAppend(a, b');
      var s := a + b;
      assert s[..|s| - 1] == a + b';
      assert s[|s| - 1] == b[|b| - 1];
      var d := Dedup(a + b');
      var r := Dedup(s);
      assert r == d || r == d + [b[|b| - 1]];
      if r == d + [b[|b| - 1]] {
        assert b[|b| - 1] !in a + b';
        assert r[..|a|] == d[..|a|];
        assert r[|a|..] == d[|a|..] + [b[|b| - 1]];
      }
      forall x | x in r[|a|..] ensures x in b && x !in a {
        if x in d[|a|..] {
          assert x in b';
        }
      }
    }
  }

  /** `s.filter(y => y !== x)`: every occurrence of `x` removed. */
  function Without<T(==,!new)>(s: seq<T>, x: T): (r: seq<T>)
    ensures x !in r
    ensures forall y :: y != x ==> multiset(r)[y] == multiset(s)[y]
    ensures IsSubsequence(r, s)
  {
    var r := Filter(s, y => y != x);
    FilterMembers(s, y => y != x);
    FilterMultiset(s, y => y != x);
    FilterIsSubsequence(s, y => y != x);
    r
  }

  /** Removing an element that was just appended to a sequence lacking it
      gives the sequence back. */
  lemma WithoutAppended<T(!new)>(s: seq<T>, x: T)
    requires x !in s
    ensures Without(s + [x], x) == s
  {
    FilterAppend(s, [x], y => y != x);
    FilterKeepsAll(s, y => y != x);
  }
}
