/**
  Sequence operations that the components use through `Array.prototype`:
  `filter`, a stable `sort` with a descending numeric comparator
  (`(a, b) => key(b) - key(a)`), and first-appearance de-duplication
  (`new Set(...)` iteration order).
 */
module Seqs {

  /** `s.filter(p)`: the elements of s that satisfy p, in their order. */
  function Filter<T>(s: seq<T>, p: T -> bool): (r: seq<T>)
    ensures |r| <= |s|
    ensures forall i :: 0 <= i < |r| ==> p(r[i])
    ensures multiset(r) <= multiset(s)
  {
    if s == [] then []
    else
      var init := s[..|s| - 1];
      assert s == init + [s[|s| - 1]];
      Filter(init, p) + (if p(s[|s| - 1]) then [s[|s| - 1]] else [])
  }

  /** A filter that every element passes returns its input unchanged. */
  lemma {:induction false} FilterAll<T>(s: seq<T>, p: T -> bool)
    requires forall i :: 0 <= i < |s| ==> p(s[i])
    ensures Filter(s, p) == s
  {
    if s != [] {
      var init, last := s[..|s| - 1], s[|s| - 1];
      FilterAll(init, p);
      InitLast(s);
      FilterSnoc(init, last, p);
    }
  }

  /** Filters by predicates that agree on every element give the same result. */
  lemma {:induction false} FilterExt<T>(s: seq<T>, p: T -> bool, q: T -> bool)
    requires forall i :: 0 <= i < |s| ==> p(s[i]) == q(s[i])
    ensures Filter(s, p) == Filter(s, q)
  {
    if s != [] {
      FilterExt(s[..|s| - 1], p, q);
    }
  }

  /** Every element of the input that passes the predicate is kept. */
  lemma {:induction false} FilterComplete<T>(s: seq<T>, p: T -> bool, k: int)
    requires 0 <= k < |s| && p(s[k])
    ensures s[k] in Filter(s, p)
  {
    var init := s[..|s| - 1];
    FilterSnoc(init, s[|s| - 1], p);
    assert init + [s[|s| - 1]] == s;
    if k < |init| {
      assert init[k] == s[k];
      FilterComplete(init, p, k);
    }
  }

  /** A permutation has the same members. */
  lemma InPermutation<T>(a: seq<T>, b: seq<T>, x: T)
    requires multiset(a) == multiset(b) && x in b
    ensures x in a
  {
    assert x in multiset(b);
  }

  /** A prefix one element longer is the shorter prefix and that element. */
  lemma PrefixSnoc<T>(s: seq<T>, n: int)
    requires 0 <= n < |s|
    ensures s[..n + 1] == s[..n] + [s[n]]
  {
  }

  /** The prefix as long as the sequence is the sequence. */
  lemma PrefixAll<T>(s: seq<T>, n: int)
    requires n == |s|
    ensures s[..n] == s
  {
  }

  /** A filter keeps exactly the elements of its input that pass the predicate. */
  lemma FilterMembers<T>(s: seq<T>, p: T -> bool)
    ensures forall i :: 0 <= i < |Filter(s, p)| ==> Filter(s, p)[i] in s
    ensures forall i :: 0 <= i < |s| && p(s[i]) ==> s[i] in Filter(s, p)
  {
    var r := Filter(s, p);
    forall i | 0 <= i < |r| ensures r[i] in s {
      assert r[i] in multiset(r);
    }
    forall i | 0 <= i < |s| && p(s[i]) ensures s[i] in r {
      FilterComplete(s, p, i);
    }
  }

  /** Whatever a filter returns comes from its input and passes the predicate. */
  lemma FilterMember<T>(s: seq<T>, p: T -> bool, x: T)
    requires x in Filter(s, p)
    ensures x in s && p(x)
  {
    var r := Filter(s, p);
    var j :| 0 <= j < |r| && r[j] == x;
  }

  /** A filter that some element passes is not empty. */
  lemma FilterNonEmpty<T>(s: seq<T>, p: T -> bool, k: int)
    requires 0 <= k < |s| && p(s[k])
    ensures |Filter(s, p)| >= 1
  {
    FilterComplete(s, p, k);
  }

  /** A filter that some element fails is shorter than its input. */
  lemma {:induction false} FilterShorter<T>(s: seq<T>, p: T -> bool, k: int)
    requires 0 <= k < |s| && !p(s[k])
    ensures |Filter(s, p)| < |s|
  {
    var init := s[..|s| - 1];
    if k < |s| - 1 {
      assert init[k] == s[k];
      FilterShorter(init, p, k);
    }
  }

  /** A filter that no element passes returns nothing. */
  lemma {:induction false} FilterNone<T>(s: seq<T>, p: T -> bool)
    requires forall i :: 0 <= i < |s| ==> !p(s[i])
    ensures Filter(s, p) == []
  {
    if s != [] {
      FilterNone(s[..|s| - 1], p);
    }
  }

  /**
    Filtering by two predicates that never hold together splits the
    filter by their disjunction: lengths and sums add up.
   */
  lemma {:induction false} FilterDisjoint<T>(s: seq<T>, p: T -> bool, q: T -> bool, pq: T -> bool, f: T -> int)
    requires forall x :: !(p(x) && q(x))
    requires forall x :: pq(x) == (p(x) || q(x))
    ensures |Filter(s, p)| + |Filter(s, q)| == |Filter(s, pq)|
    ensures SumBy(Filter(s, p), f) + SumBy(Filter(s, q), f) == SumBy(Filter(s, pq), f)
  {
    if s != [] {
      FilterDisjoint(s[..|s| - 1], p, q, pq, f);
      FilterDisjointStep(s, p, q, pq, f);
    }
  }

  lemma FilterDisjointStep<T>(s: seq<T>, p: T -> bool, q: T -> bool, pq: T -> bool, f: T -> int)
    requires s != []
    requires var x := s[|s| - 1]; !(p(x) && q(x)) && pq(x) == (p(x) || q(x))
    requires var init := s[..|s| - 1];
      && |Filter(init, p)| + |Filter(init, q)| == |Filter(init, pq)|
      && SumBy(Filter(init, p), f) + SumBy(Filter(init, q), f) == SumBy(Filter(init, pq), f)
    ensures |Filter(s, p)| + |Filter(s, q)| == |Filter(s, pq)|
    ensures SumBy(Filter(s, p), f) + SumBy(Filter(s, q), f) == SumBy(Filter(s, pq), f)
  {
    var init, x := s[..|s| - 1], s[|s| - 1];
    assert Filter(s, p) == Filter(init, p) + if p(x) then [x] else [];
    assert Filter(s, q) == Filter(init, q) + if q(x) then [x] else [];
    assert Filter(s, pq) == Filter(init, pq) + if pq(x) then [x] else [];
    DisjointSnoc(Filter(init, p), Filter(init, q), Filter(init, pq), x, p(x), q(x), f);
  }

  lemma DisjointSnoc<T>(a: seq<T>, b: seq<T>, c: seq<T>, x: T, inA: bool, inB: bool, f: T -> int)
    requires !(inA && inB)
    requires |a| + |b| == |c| && SumBy(a, f) + SumBy(b, f) == SumBy(c, f)
    ensures var a', b', c' := a + (if inA then [x] else []), b + (if inB then [x] else []), c + (if inA || inB then [x] else []);
      |a'| + |b'| == |c'| && SumBy(a', f) + SumBy(b', f) == SumBy(c', f)
  {
    SumBySnoc(a, x, f);
    SumBySnoc(b, x, f);
    SumBySnoc(c, x, f);
    assert a + [] == a && b + [] == b && c + [] == c;
  }

  /** A predicate and its negation split a list into two parts that together hold every element. */
  lemma {:induction false} FilterSplit<T>(s: seq<T>, p: T -> bool, q: T -> bool)
    requires forall x :: q(x) == !p(x)
    ensures multiset(Filter(s, p)) + multiset(Filter(s, q)) == multiset(s)
  {
    if s != [] {
      var init, x := s[..|s| - 1], s[|s| - 1];
      FilterSplit(init, p, q);
      FilterSplitSnoc(init, x, p, q);
      InitLast(s);
    }
  }

  lemma FilterSplitSnoc<T>(s: seq<T>, x: T, p: T -> bool, q: T -> bool)
    requires q(x) == !p(x)
    requires multiset(Filter(s, p)) + multiset(Filter(s, q)) == multiset(s)
    ensures multiset(Filter(s + [x], p)) + multiset(Filter(s + [x], q)) == multiset(s + [x])
  {
    FilterSnoc(s, x, p);
    FilterSnoc(s, x, q);
    SplitSnoc(Filter(s, p), Filter(s, q), s, x, p(x));
  }

  lemma SplitSnoc<T>(a: seq<T>, b: seq<T>, s: seq<T>, x: T, inA: bool)
    requires multiset(a) + multiset(b) == multiset(s)
    ensures multiset(a + if inA then [x] else []) + multiset(b + if inA then [] else [x]) == multiset(s + [x])
  {
    assert multiset(s + [x]) == multiset(s) + multiset{x};
    if inA {
      assert b + [] == b;
      assert multiset(a + [x]) == multiset(a) + multiset{x};
    } else {
      assert a + [] == a;
      assert multiset(b + [x]) == multiset(b) + multiset{x};
    }
  }

  /** Appending one element extends the filter by it exactly when it passes. */
  lemma FilterSnoc<T>(s: seq<T>, x: T, p: T -> bool)
    ensures Filter(s + [x], p) == Filter(s, p) + (if p(x) then [x] else [])
  {
    assert (s + [x])[..|s|] == s;
  }

  /** The elements of s, each mapped by f, in the order of s. */
  function MapSeq<A, B>(s: seq<A>, f: A -> B): (r: seq<B>)
    ensures |r| == |s|
  {
    if s == [] then [] else MapSeq(s[..|s| - 1], f) + [f(s[|s| - 1])]
  }

  /** Position i of the mapped sequence is the image of position i. */
  lemma {:induction false} MapAt<A, B>(s: seq<A>, f: A -> B, i: int)
    requires 0 <= i < |s|
    ensures MapSeq(s, f)[i] == f(s[i])
  {
    var init := s[..|s| - 1];
    if i < |init| {
      MapAt(init, f, i);
      assert init[i] == s[i];
    }
  }

  lemma SumBySnoc<T>(s: seq<T>, x: T, f: T -> int)
    ensures SumBy(s + [x], f) == SumBy(s, f) + f(x)
  {
    assert (s + [x])[..|s|] == s;
  }

  /** A filter keeps every copy of a passing value and no copy of a failing one. */
  lemma {:induction false} FilterCount<T>(s: seq<T>, p: T -> bool, x: T)
    ensures multiset(Filter(s, p))[x] == if p(x) then multiset(s)[x] else 0
  {
    if s != [] {
      var init, last := s[..|s| - 1], s[|s| - 1];
      FilterCount(init, p, x);
      var tail := if p(last) then [last] else [];
      assert Filter(s, p) == Filter(init, p) + tail;
      assert multiset(Filter(s, p)) == multiset(Filter(init, p)) + multiset(tail);
      MultisetSnoc(s);
    }
  }

  lemma MultisetSnoc<T>(s: seq<T>)
    requires s != []
    ensures multiset(s) == multiset(s[..|s| - 1]) + multiset{s[|s| - 1]}
  {
    assert s == s[..|s| - 1] + [s[|s| - 1]];
  }

  /** Two filters in a row are one filter by the conjunction. */
  lemma {:induction false} FilterFilter<T>(s: seq<T>, p: T -> bool, q: T -> bool, pq: T -> bool)
    requires forall x :: pq(x) == (p(x) && q(x))
    ensures Filter(Filter(s, p), q) == Filter(s, pq)
  {
    if s != [] {
      var init, last := s[..|s| - 1], s[|s| - 1];
      FilterFilter(init, p, q, pq);
      FilterAppend(Filter(init, p), if p(last) then [last] else [], q);
      if p(last) {
        assert Filter([last], q) == (if q(last) then [last] else []) by {
          assert [last][..0] == [];
        }
      }
    }
  }

  lemma {:induction false} FilterAppend<T>(a: seq<T>, b: seq<T>, p: T -> bool)
    ensures Filter(a + b, p) == Filter(a, p) + Filter(b, p)
  {
    if b != [] {
      var init := b[..|b| - 1];
      assert (a + b)[..|a + b| - 1] == a + init;
      FilterAppend(a, init, p);
    } else {
      assert a + b == a;
    }
  }

  /** The elements of s whose key equals k, in their order in s. */
  function KeyRun<T, K(==)>(s: seq<T>, key: T -> K, k: K): seq<T>
  {
    if s == [] then [] else (if key(s[0]) == k then [s[0]] else []) + KeyRun(s[1..], key, k)
  }

  ghost predicate SortedDesc<T>(s: seq<T>, key: T -> real)
  {
    forall i, j :: 0 <= i < j < |s| ==> key(s[i]) >= key(s[j])
  }

  /**
    `a.sort((x, y) => key(y) - key(x))` on the array itself: an insertion
    sort that moves an element left only past strictly smaller keys. It
    puts the array in the order of the stable sort `SortDesc`.
   */
  method SortInPlaceDesc<T>(a: array<T>, key: T -> real)
    modifies a
    ensures a[..] == SortDesc(old(a[..]), key)
    ensures SortedDesc(a[..], key)
    ensures multiset(a[..]) == multiset(old(a[..]))
  {
    ghost var o := a[..];
    var i := 0;
    while i < a.Length
      invariant 0 <= i <= a.Length
      invariant SortedDesc(a[..i], key)
      invariant a[i..] == o[i..]
      invariant forall k :: KeyRun(a[..i], key, k) == KeyRun(o[..i], key, k)
    {
      InsertNext(a, i, key);
      ghost var sorted := a[..i + 1];
      forall k ensures KeyRun(sorted, key, k) == KeyRun(o[..i + 1], key, k) {
        assert o[..i + 1] == o[..i] + [o[i]];
        KeyRunAppend(o[..i], [o[i]], key, k);
      }
      i := i + 1;
    }
    assert a[..] == a[..a.Length] && o == o[..a.Length];
    forall k ensures KeyRun(a[..], key, k) == KeyRun(SortDesc(o, key), key, k) {
      SortDescStable(o, key, k);
    }
    SortedRunsUnique(a[..], SortDesc(o, key), key);
  }

  /**
    One insertion-sort pass: a[i] moves left past the elements with
    strictly smaller keys, so it lands after the equal ones.
   */
  method InsertNext<T>(a: array<T>, i: int, key: T -> real)
    requires 0 <= i < a.Length && SortedDesc(a[..i], key)
    modifies a
    ensures SortedDesc(a[..i + 1], key)
    ensures a[i + 1..] == old(a[i + 1..])
    ensures forall k :: KeyRun(a[..i + 1], key, k) == KeyRun(old(a[..i]), key, k) + KeyRun([old(a[i])], key, k)
  {
    ghost var p, x, rest := a[..i], a[i], a[i + 1..];
    assert a[..] == p[..i] + [x] + p[i..] + rest;
    var j := i;
    while j > 0 && key(a[j - 1]) < key(a[j])
      invariant 0 <= j <= i
      invariant a[..] == p[..j] + [x] + p[j..] + rest
      invariant forall q :: j <= q < i ==> key(p[q]) < key(x)
    {
      SwapStep(p, x, rest, j);
      assert a[j - 1] == p[j - 1] && a[j] == x;
      a[j - 1], a[j] := a[j], a[j - 1];
      j := j - 1;
    }
    assert a[j] == x && (j > 0 ==> a[j - 1] == p[j - 1]);
    Inserted(p, x, j, key);
    assert a[..i + 1] == p[..j] + [x] + p[j..];
    assert a[i + 1..] == rest;
  }

  /** Swapping x with its left neighbour moves it one place down p. */
  lemma SwapStep<T>(p: seq<T>, x: T, rest: seq<T>, j: int)
    requires 0 < j <= |p|
    ensures var s := p[..j] + [x] + p[j..] + rest;
      && s[j - 1] == p[j - 1] && s[j] == x
      && s[j - 1 := x][j := p[j - 1]] == p[..j - 1] + [x] + p[j - 1..] + rest
  {
    var s := p[..j] + [x] + p[j..] + rest;
    var t := p[..j - 1] + [x] + p[j - 1..] + rest;
    assert |s| == |t|;
    forall q | 0 <= q < |s| ensures s[j - 1 := x][j := p[j - 1]][q] == t[q] {
      if q < j - 1 {
      } else if q == j - 1 || q == j {
      } else if q <= |p| {
        assert s[q] == p[q - 1] && t[q] == p[q - 1];
      } else {
        assert s[q] == rest[q - |p| - 1] && t[q] == rest[q - |p| - 1];
      }
    }
  }

  /**
    x placed after the elements of a sorted p whose keys are at least its
    own and before the smaller ones keeps the order and joins its key's
    run last.
   */
  lemma Inserted<T>(p: seq<T>, x: T, j: int, key: T -> real)
    requires SortedDesc(p, key) && 0 <= j <= |p|
    requires forall q :: j <= q < |p| ==> key(p[q]) < key(x)
    requires j == 0 || key(p[j - 1]) >= key(x)
    ensures SortedDesc(p[..j] + [x] + p[j..], key)
    ensures forall k :: KeyRun(p[..j] + [x] + p[j..], key, k) == KeyRun(p, key, k) + KeyRun([x], key, k)
  {
    InsertedSorted(p, x, j, key);
    forall k ensures KeyRun(p[..j] + [x] + p[j..], key, k) == KeyRun(p, key, k) + KeyRun([x], key, k) {
      InsertedRun(p, x, j, key, k);
    }
  }

  lemma InsertedSorted<T>(p: seq<T>, x: T, j: int, key: T -> real)
    requires SortedDesc(p, key) && 0 <= j <= |p|
    requires forall q :: j <= q < |p| ==> key(p[q]) < key(x)
    requires j == 0 || key(p[j - 1]) >= key(x)
    ensures SortedDesc(p[..j] + [x] + p[j..], key)
  {
    var s := p[..j] + [x] + p[j..];
    forall u, v | 0 <= u < v < |s| ensures key(s[u]) >= key(s[v]) {
      if v < j {
        assert s[u] == p[u] && s[v] == p[v];
      } else if v == j {
        assert s[u] == p[u] && key(p[u]) >= key(p[j - 1]);
      } else if u < j {
        assert s[u] == p[u] && s[v] == p[v - 1];
      } else if u == j {
        assert s[v] == p[v - 1];
      } else {
        assert s[u] == p[u - 1] && s[v] == p[v - 1];
      }
    }
  }

  lemma InsertedRun<T>(p: seq<T>, x: T, j: int, key: T -> real, k: real)
    requires 0 <= j <= |p|
    requires forall q :: j <= q < |p| ==> key(p[q]) < key(x)
    ensures KeyRun(p[..j] + [x] + p[j..], key, k) == KeyRun(p, key, k) + KeyRun([x], key, k)
  {
    var front, back := p[..j], p[j..];
    var a, b, c := KeyRun(front, key, k), KeyRun([x], key, k), KeyRun(back, key, k);
    assert p == front + back;
    KeyRunAppend(front, back, key, k);
    KeyRunAppend(front + [x], back, key, k);
    KeyRunAppend(front, [x], key, k);
    assert KeyRun(p[..j] + [x] + p[j..], key, k) == a + b + c;
    assert KeyRun(p, key, k) == a + c;
    if key(x) == k {
      KeyRunNone(back, key, k);
      assert c == [];
      assert a + b + c == a + b && a + c == a;
    } else {
      assert b == [];
      assert a + b == a;
    }
  }

  lemma {:induction false} KeyRunAppend<T>(a: seq<T>, b: seq<T>, key: T -> real, k: real)
    ensures KeyRun(a + b, key, k) == KeyRun(a, key, k) + KeyRun(b, key, k)
  {
    if a != [] {
      assert (a + b)[1..] == a[1..] + b;
      KeyRunAppend(a[1..], b, key, k);
    } else {
      assert a + b == b;
    }
  }

  /** A run of a key no element has is empty. */
  lemma {:induction false} KeyRunNone<T>(s: seq<T>, key: T -> real, k: real)
    requires forall q :: 0 <= q < |s| ==> key(s[q]) != k
    ensures KeyRun(s, key, k) == []
  {
    if s != [] {
      KeyRunNone(s[1..], key, k);
    }
  }

  /** A run holds elements of s with key k. */
  lemma {:induction false} KeyRunMember<T>(s: seq<T>, key: T -> real, k: real)
    ensures forall x :: x in KeyRun(s, key, k) ==> x in s && key(x) == k
  {
    if s != [] {
      KeyRunMember(s[1..], key, k);
    }
  }

  /**
    Two sequences sorted by descending key whose runs of equal keys agree
    are the same sequence.
   */
  lemma {:induction false} SortedRunsUnique<T>(r1: seq<T>, r2: seq<T>, key: T -> real)
    requires SortedDesc(r1, key) && SortedDesc(r2, key)
    requires forall k :: KeyRun(r1, key, k) == KeyRun(r2, key, k)
    ensures r1 == r2
    decreases |r1| + |r2|
  {
    SameRunsBothEmpty(r1, r2, key);
    if r1 != [] {
      HeadsAgree(r1, r2, key);
      SortedRunsUnique(r1[1..], r2[1..], key);
      assert r1 == [r1[0]] + r1[1..] && r2 == [r2[0]] + r2[1..];
    }
  }

  /** Sorted sequences with the same runs start alike and their tails have the same runs. */
  lemma HeadsAgree<T>(r1: seq<T>, r2: seq<T>, key: T -> real)
    requires r1 != [] && r2 != [] && SortedDesc(r1, key) && SortedDesc(r2, key)
    requires forall k :: KeyRun(r1, key, k) == KeyRun(r2, key, k)
    ensures r1[0] == r2[0]
    ensures SortedDesc(r1[1..], key) && SortedDesc(r2[1..], key)
    ensures forall k :: KeyRun(r1[1..], key, k) == KeyRun(r2[1..], key, k)
  {
    var k1 := key(r1[0]);
    HeadStartsRun(r1, key);
    HeadStartsRun(r2, key);
    HeadKeyBounds(r1, r2, key);
    HeadKeyBounds(r2, r1, key);
    assert KeyRun(r1, key, k1)[0] == r1[0] && KeyRun(r2, key, k1)[0] == r2[0];
    forall k ensures KeyRun(r1[1..], key, k) == KeyRun(r2[1..], key, k) {
      var h := if k1 == k then [r1[0]] else [];
      assert KeyRun(r1, key, k) == h + KeyRun(r1[1..], key, k);
      assert KeyRun(r2, key, k) == h + KeyRun(r2[1..], key, k);
      assert KeyRun(r1[1..], key, k) == KeyRun(r1, key, k)[|h|..];
    }
  }

  /** Sequences with the same runs are empty together. */
  lemma SameRunsBothEmpty<T>(r1: seq<T>, r2: seq<T>, key: T -> real)
    requires forall k :: KeyRun(r1, key, k) == KeyRun(r2, key, k)
    ensures r1 == [] <==> r2 == []
  {
    HeadStartsRun(r1, key);
    HeadStartsRun(r2, key);
    if r1 != [] {
      assert KeyRun(r2, key, key(r1[0])) != [];
    }
    if r2 != [] {
      assert KeyRun(r1, key, key(r2[0])) != [];
    }
  }

  /** The first element opens the run of its key. */
  lemma HeadStartsRun<T>(r: seq<T>, key: T -> real)
    ensures r != [] ==> KeyRun(r, key, key(r[0])) != [] && KeyRun(r, key, key(r[0]))[0] == r[0]
    ensures r == [] ==> forall k :: KeyRun(r, key, k) == []
  {
  }

  /** The first key of a sorted sequence is at least the first key of one with the same runs. */
  lemma HeadKeyBounds<T>(r1: seq<T>, r2: seq<T>, key: T -> real)
    requires r1 != [] && r2 != [] && SortedDesc(r2, key)
    requires KeyRun(r1, key, key(r1[0])) == KeyRun(r2, key, key(r1[0]))
    ensures key(r1[0]) <= key(r2[0])
  {
    var k := key(r1[0]);
    assert r1[0] in KeyRun(r1, key, k);
    KeyRunMember(r2, key, k);
    var q :| 0 <= q < |r2| && r2[q] == r1[0];
    assert q == 0 || key(r2[0]) >= key(r2[q]);
  }

  /** Places x before the first element whose key is not larger than key(x). */
  function Insert<T>(x: T, t: seq<T>, key: T -> real): (r: seq<T>)
    ensures multiset(r) == multiset(t) + multiset{x} && |r| == |t| + 1
  {
    if t == [] || key(t[0]) <= key(x) then
      [x] + t
    else
      assert t == [t[0]] + t[1..];
      [t[0]] + Insert(x, t[1..], key)
  }

  lemma {:induction false} InsertSorted<T>(x: T, t: seq<T>, key: T -> real)
    requires SortedDesc(t, key)
    ensures SortedDesc(Insert(x, t, key), key)
  {
    if t == [] || key(t[0]) <= key(x) {
    } else {
      var rest := Insert(x, t[1..], key);
      InsertSorted(x, t[1..], key);
      InsertBelow(x, t[1..], key, key(t[0]));
      ConsSortedDesc(t[0], rest, key);
    }
  }

  /** Inserting below a bound keeps every key below it. */
  lemma InsertBelow<T>(x: T, t: seq<T>, key: T -> real, b: real)
    requires key(x) <= b && forall i :: 0 <= i < |t| ==> key(t[i]) <= b
    ensures forall i :: 0 <= i < |Insert(x, t, key)| ==> key(Insert(x, t, key)[i]) <= b
  {
    var r := Insert(x, t, key);
    forall i | 0 <= i < |r| ensures key(r[i]) <= b {
      var y := r[i];
      assert y in multiset(r);
      if y != x {
        assert y in multiset(t);
        var j :| 0 <= j < |t| && t[j] == y;
      }
    }
  }

  /** A head with a key at least every later key extends a sorted sequence. */
  lemma ConsSortedDesc<T>(h: T, rest: seq<T>, key: T -> real)
    requires SortedDesc(rest, key) && forall i :: 0 <= i < |rest| ==> key(rest[i]) <= key(h)
    ensures SortedDesc([h] + rest, key)
  {
    var r := [h] + rest;
    forall i, j | 0 <= i < j < |r| ensures key(r[i]) >= key(r[j]) {
      assert r[j] == rest[j - 1];
      if i > 0 {
        assert r[i] == rest[i - 1];
      }
    }
  }

  function SortDesc<T>(s: seq<T>, key: T -> real): (r: seq<T>)
    ensures multiset(r) == multiset(s) && |r| == |s|
    ensures SortedDesc(r, key)
  {
    if s == [] then [] else
      assert s == [s[0]] + s[1..];
      var t := SortDesc(s[1..], key);
      InsertSorted(s[0], t, key);
      Insert(s[0], t, key)
  }

  lemma {:induction false} InsertKeyRun<T>(x: T, t: seq<T>, key: T -> real, k: real)
    ensures KeyRun(Insert(x, t, key), key, k) == (if key(x) == k then [x] else []) + KeyRun(t, key, k)
  {
    if t == [] || key(t[0]) <= key(x) {
      assert ([x] + t)[1..] == t;
    } else {
      var rest := Insert(x, t[1..], key);
      var hx := if key(x) == k then [x] else [];
      var h0 := if key(t[0]) == k then [t[0]] else [];
      assert ([t[0]] + rest)[1..] == rest;
      assert KeyRun([t[0]] + rest, key, k) == h0 + KeyRun(rest, key, k);
      InsertKeyRun(x, t[1..], key, k);
      SwapAroundEmpty(h0, hx, KeyRun(t[1..], key, k));
    }
  }

  lemma SwapAroundEmpty<T>(a: seq<T>, b: seq<T>, c: seq<T>)
    requires a == [] || b == []
    ensures a + (b + c) == b + (a + c)
  {
    if a == [] {
      assert a + (b + c) == b + c && a + c == c;
    } else {
      assert b + (a + c) == a + c && b + c == c;
    }
  }

  /** Stability: elements with equal keys keep their relative input order. */
  lemma {:induction false} SortDescStable<T>(s: seq<T>, key: T -> real, k: real)
    ensures KeyRun(SortDesc(s, key), key, k) == KeyRun(s, key, k)
  {
    if s != [] {
      SortDescStable(s[1..], key, k);
      InsertKeyRun(s[0], SortDesc(s[1..], key), key, k);
    }
  }

  /** i is the first position of s holding its largest key. */
  ghost predicate IsFirstMax<T>(s: seq<T>, i: int, key: T -> real)
  {
    && 0 <= i < |s|
    && (forall j :: 0 <= j < |s| ==> key(s[j]) <= key(s[i]))
    && (forall j :: 0 <= j < i ==> key(s[j]) < key(s[i]))
  }

  /** The stable sort starts with the first element that holds the largest key. */
  lemma {:induction false} SortDescHead<T>(s: seq<T>, key: T -> real)
    requires s != []
    ensures exists i :: IsFirstMax(s, i, key) && SortDesc(s, key)[0] == s[i]
  {
    var tail := s[1..];
    var t := SortDesc(tail, key);
    assert SortDesc(s, key) == Insert(s[0], t, key);
    if tail == [] {
      assert IsFirstMax(s, 0, key);
    } else {
      SortDescHead(tail, key);
      var m :| IsFirstMax(tail, m, key) && t[0] == tail[m];
      FirstMaxCons(s, m, key);
    }
  }

  /** Where the first largest key of s sits, given the one of its tail. */
  lemma FirstMaxCons<T>(s: seq<T>, m: int, key: T -> real)
    requires |s| >= 2 && IsFirstMax(s[1..], m, key)
    ensures key(s[m + 1]) <= key(s[0]) ==> IsFirstMax(s, 0, key)
    ensures key(s[m + 1]) > key(s[0]) ==> IsFirstMax(s, m + 1, key)
  {
    var tail := s[1..];
    forall j | 0 < j < |s| ensures s[j] == tail[j - 1] && key(s[j]) <= key(s[m + 1]) {
      assert s[j] == tail[j - 1];
    }
  }

  ghost predicate NoDup<T>(s: seq<T>)
  {
    forall i, j :: 0 <= i < j < |s| ==> s[i] != s[j]
  }

  /** Filtering keeps a list free of duplicates. */
  lemma {:induction false} FilterNoDup<T>(s: seq<T>, p: T -> bool)
    requires NoDup(s)
    ensures NoDup(Filter(s, p))
  {
    if s != [] {
      var init, x := s[..|s| - 1], s[|s| - 1];
      FilterNoDup(init, p);
      InitLast(s);
      FilterSnoc(init, x, p);
      if p(x) {
        assert x !in init;
        assert x !in multiset(Filter(init, p));
        NoDupSnoc(Filter(init, p), x);
      } else {
        assert Filter(init, p) + [] == Filter(init, p);
      }
    }
  }

  lemma NoDupSnoc<T>(a: seq<T>, x: T)
    requires NoDup(a) && x !in a
    ensures NoDup(a + [x])
  {
  }

  /** A non-empty sequence is its prefix and its last element. */
  lemma ConsTail<T>(s: seq<T>)
    requires s != []
    ensures s == [s[0]] + s[1..]
  {
  }

  lemma InitLast<T>(s: seq<T>)
    requires s != []
    ensures s == s[..|s| - 1] + [s[|s| - 1]]
  {
  }

  /** Without duplicates, every value occurs at most once. */
  lemma {:induction false} NoDupCount<T>(s: seq<T>, x: T)
    requires NoDup(s)
    ensures multiset(s)[x] <= 1
  {
    if s != [] {
      var init, last := s[..|s| - 1], s[|s| - 1];
      assert s == init + [last];
      assert NoDup(init);
      NoDupCount(init, x);
      assert last !in init;
    }
  }

  /** Two equal elements at two positions count twice. */
  lemma TwoPositions<T>(r: seq<T>, i: int, j: int)
    requires 0 <= i < j < |r| && r[i] == r[j]
    ensures multiset(r)[r[i]] >= 2
  {
    assert r == r[..i] + [r[i]] + r[i + 1..j] + [r[j]] + r[j + 1..];
  }

  /** Where an element of a permutation of s sits in s. */
  lemma PermutationIndex<T>(s: seq<T>, r: seq<T>, i: int) returns (k: int)
    requires multiset(r) == multiset(s) && 0 <= i < |r|
    ensures 0 <= k < |s| && s[k] == r[i]
  {
    assert r[i] in multiset(s);
    k :| 0 <= k < |s| && s[k] == r[i];
  }

  /** A permutation of a sequence without duplicates has none either. */
  lemma NoDupPermutation<T>(s: seq<T>, r: seq<T>)
    requires NoDup(s) && multiset(r) == multiset(s)
    ensures NoDup(r)
  {
    forall i, j | 0 <= i < j < |r| ensures r[i] != r[j] {
      NoDupCount(s, r[i]);
      if r[i] == r[j] {
        TwoPositions(r, i, j);
      }
    }
  }

  /** The index of the first occurrence of x in s. */
  function IndexOf<T(==)>(s: seq<T>, x: T): (k: nat)
    requires x in s
    ensures k < |s| && s[k] == x
  {
    if s[0] == x then 0 else 1 + IndexOf(s[1..], x)
  }

  /** x does not occur before its first index. */
  lemma {:induction false} IndexOfFirst<T>(s: seq<T>, x: T, m: nat)
    requires x in s && m < IndexOf(s, x)
    ensures s[m] != x
  {
    if m > 0 {
      IndexOfFirst(s[1..], x, m - 1);
    }
  }

  /** An element of a prefix first occurs in the whole sequence where it first occurs in the prefix. */
  lemma IndexOfPrefix<T>(s: seq<T>, n: nat, x: T)
    requires n <= |s| && x in s[..n]
    ensures x in s && IndexOf(s, x) == IndexOf(s[..n], x)
  {
    var b := IndexOf(s[..n], x);
    assert s[b] == x;
    var a := IndexOf(s, x);
    if b < a {
      IndexOfFirst(s, x, b);
    }
    assert s[..n][a] == x;
    if a < b {
      IndexOfFirst(s[..n], x, a);
    }
  }

  /**
    The distinct elements of s in order of first appearance (the order in
    which a `Set` built from s iterates).
   */
  function Dedup<T(==)>(s: seq<T>): (r: seq<T>)
    ensures NoDup(r)
    ensures forall i :: 0 <= i < |r| ==> r[i] in s
    ensures forall i :: 0 <= i < |s| ==> s[i] in r
    ensures |r| <= |s|
    ensures FirstAppearanceOrder(s, r)
  {
    if s == [] then []
    else
      var init, x := s[..|s| - 1], s[|s| - 1];
      var d := Dedup(init);
      assert s == init + [x];
      AppendKeepsOrder(init, x, d);
      if x in d then d else d + [x]
  }

  /** The elements of r occur in s, each first occurring before those after it in r. */
  ghost predicate FirstAppearanceOrder<T>(s: seq<T>, r: seq<T>)
  {
    forall i, j :: 0 <= i < j < |r| ==> r[i] in s && r[j] in s && IndexOf(s, r[i]) < IndexOf(s, r[j])
  }

  /**
    Appending x to s keeps the first-appearance order of distinct elements
    d of s, and puts x, when it is new, after all of them.
   */
  lemma AppendKeepsOrder<T>(s: seq<T>, x: T, d: seq<T>)
    requires forall i :: 0 <= i < |d| ==> d[i] in s
    requires forall i :: 0 <= i < |s| ==> s[i] in d
    requires FirstAppearanceOrder(s, d)
    ensures FirstAppearanceOrder(s + [x], if x in d then d else d + [x])
  {
    var t := s + [x];
    assert t[..|s|] == s;
    forall i | 0 <= i < |d| ensures d[i] in t && IndexOf(t, d[i]) == IndexOf(s, d[i]) {
      IndexOfPrefix(t, |s|, d[i]);
    }
    if x in d {
      assert FirstAppearanceOrder(t, d);
    } else {
      var e := d + [x];
      assert x !in s;
      IndexOfNew(s, x);
      forall i, j | 0 <= i < j < |e| ensures e[i] in t && e[j] in t && IndexOf(t, e[i]) < IndexOf(t, e[j]) {
        assert e[i] == d[i];
        if j == |d| {
          assert e[j] == x;
        } else {
          assert e[j] == d[j];
        }
      }
    }
  }

  /** An element new to s first occurs in s + [x] at the end. */
  lemma IndexOfNew<T>(s: seq<T>, x: T)
    requires x !in s
    ensures x in s + [x] && IndexOf(s + [x], x) == |s|
  {
    var t := s + [x];
    assert t[|s|] == x;
    forall a | 0 <= a < |s| ensures t[a] != x {
      assert t[a] == s[a];
    }
  }

  /** One more element of s: Dedup grows by it exactly when it is new. */
  lemma DedupPrefix<T>(s: seq<T>, k: int, d: seq<T>)
    requires 0 <= k < |s| && Dedup(s[..k]) == d
    ensures Dedup(s[..k + 1]) == if s[k] in d then d else d + [s[k]]
  {
    assert s[..k + 1] == s[..k] + [s[k]];
    DedupSnoc(s[..k], s[k]);
  }

  /** A repeated element leaves the de-duplicated prefix as it was. */
  lemma DedupKeep<T>(s: seq<T>, k: int, d: seq<T>)
    requires 0 <= k < |s| && Dedup(s[..k]) == d && s[k] in d
    ensures Dedup(s[..k + 1]) == d
  {
    DedupPrefix(s, k, d);
  }

  /** A new element x is appended, giving e. */
  lemma DedupGrow<T>(s: seq<T>, k: int, d: seq<T>, x: T, e: seq<T>)
    requires 0 <= k < |s| && Dedup(s[..k]) == d && s[k] == x && x !in d && e == d + [x]
    ensures Dedup(s[..k + 1]) == e
  {
    DedupPrefix(s, k, d);
  }

  /** A new element is appended to the de-duplicated list; a repeated one changes nothing. */
  lemma DedupSnoc<T>(s: seq<T>, x: T)
    ensures Dedup(s + [x]) == if x in Dedup(s) then Dedup(s) else Dedup(s) + [x]
  {
    assert (s + [x])[..|s|] == s;
  }

  /** f added up over s, left to right. */
  function SumBy<T>(s: seq<T>, f: T -> int): int
  {
    if s == [] then 0 else SumBy(s[..|s| - 1], f) + f(s[|s| - 1])
  }

  lemma {:induction false} SumByCons<T>(x: T, t: seq<T>, f: T -> int)
    ensures SumBy([x] + t, f) == f(x) + SumBy(t, f)
  {
    if t != [] {
      var init := t[..|t| - 1];
      SumByCons(x, init, f);
      assert ([x] + t)[..|[x] + t| - 1] == [x] + init;
    } else {
      assert [x] + t == [x];
      assert [x][..0] == [];
    }
  }

  lemma {:induction false} SumByInsert<T>(x: T, t: seq<T>, key: T -> real, f: T -> int)
    ensures SumBy(Insert(x, t, key), f) == f(x) + SumBy(t, f)
  {
    if t == [] || key(t[0]) <= key(x) {
      SumByCons(x, t, f);
    } else {
      SumByInsert(x, t[1..], key, f);
      SumByCons(t[0], Insert(x, t[1..], key), f);
      SumByCons(t[0], t[1..], f);
      assert [t[0]] + t[1..] == t;
    }
  }

  /** Sorting does not change a sum over the elements. */
  lemma {:induction false} SumBySortDesc<T>(s: seq<T>, key: T -> real, f: T -> int)
    ensures SumBy(SortDesc(s, key), f) == SumBy(s, f)
  {
    if s != [] {
      var t := SortDesc(s[1..], key);
      assert SortDesc(s, key) == Insert(s[0], t, key);
      SumBySortDesc(s[1..], key, f);
      SumByInsert(s[0], t, key, f);
      ConsTail(s);
      SumByCons(s[0], s[1..], f);
    }
  }

  /** The first n elements, or all of s when it is shorter (`slice(0, n)`). */
  function Take<T>(s: seq<T>, n: nat): (r: seq<T>)
    ensures |r| <= n && |r| <= |s|
    ensures |r| == n || |r| == |s|
    ensures |s| <= n ==> r == s
    ensures forall i :: 0 <= i < |r| ==> r[i] == s[i]
  {
    if |s| <= n then s else s[..n]
  }
}
