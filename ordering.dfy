/** The ordering resolver: sortPostProcessors sorts a list of post-processors
    by the comparator's key with a stable sort, and leaves lists of at most one
    element alone. The comparator is abstracted to an integer key. */
module Ordering {
  import opened Seqs

  /** Non-decreasing by key. */
  ghost predicate SortedBy<T>(s: seq<T>, key: T -> int) {
    forall i, j :: 0 <= i < j < |s| ==> key(s[i]) <= key(s[j])
  }

  /** The elements of `s` whose key is `k`, in their order in `s`. */
  function WithKey<T(!new)>(s: seq<T>, key: T -> int, k: int): (r: seq<T>)
    ensures forall x {:trigger x in r} :: x in r <==> x in s && key(x) == k
  {
    if s == [] then [] else (if key(s[0]) == k then [s[0]] else []) + WithKey(s[1..], key, k)
  }

  /** `r` keeps the relative order of equal-key elements of `s`: stability. */
  ghost predicate Stable<T(!new)>(s: seq<T>, r: seq<T>, key: T -> int) {
    forall k :: WithKey(r, key, k) == WithKey(s, key, k)
  }

  /** Inserts `x` into a sorted sequence before every element whose key is not
      smaller than its own. */
  function Insert<T(!new)>(x: T, s: seq<T>, key: T -> int): (r: seq<T>)
    ensures |r| == |s| + 1
    ensures forall y {:trigger y in r} :: y in r <==> y == x || y in s
  {
    if s == [] || key(x) <= key(s[0]) then [x] + s
    else
      assert s == [s[0]] + s[1..];
      [s[0]] + Insert(x, s[1..], key)
  }

  lemma {:induction false} InsertPermutation<T(!new)>(x: T, s: seq<T>, key: T -> int)
    ensures multiset(Insert(x, s, key)) == multiset(s) + multiset{x}
  {
    if s != [] && key(x) > key(s[0]) {
      InsertPermutation(x, s[1..], key);
      assert s == [s[0]] + s[1..];
    }
  }

  lemma {:induction false} InsertSorted<T(!new)>(x: T, s: seq<T>, key: T -> int)
    requires SortedBy(s, key)
    ensures SortedBy(Insert(x, s, key), key)
  {
    if s != [] && key(x) > key(s[0]) {
      var tail := Insert(x, s[1..], key);
      InsertSorted(x, s[1..], key);
      forall y | y in tail ensures key(s[0]) <= key(y) {
        if y != x {
          var i :| 0 <= i < |s[1..]| && s[1..][i] == y;
          assert s[i + 1] == y;
        }
      }
      assert Insert(x, s, key) == [s[0]] + tail;
    }
  }

  lemma WithKeyCons<T(!new)>(h: T, t: seq<T>, key: T -> int, k: int)
    ensures WithKey([h] + t, key, k) == (if key(h) == k then [h] else []) + WithKey(t, key, k)
  {
    assert ([h] + t)[0] == h && ([h] + t)[1..] == t;
  }

  lemma {:induction false} InsertWithKey<T(!new)>(x: T, s: seq<T>, key: T -> int, k: int)
    requires SortedBy(s, key)
    ensures WithKey(Insert(x, s, key), key, k) == (if key(x) == k then [x] else []) + WithKey(s, key, k)
  {
    if s == [] || key(x) <= key(s[0]) {
      WithKeyCons(x, s, key, k);
    } else {
      var h, t := s[0], s[1..];
      var tail := Insert(x, t, key);
      assert Insert(x, s, key) == [h] + tail;
      assert s == [h] + t;
      WithKeyCons(h, tail, key, k);
      WithKeyCons(h, t, key, k);
      InsertWithKey(x, t, key, k);
      var rest := WithKey(t, key, k);
      if key(x) == k {
        assert key(h) != k;
        assert WithKey(tail, key, k) == [x] + rest;
        assert WithKey([h] + tail, key, k) == [x] + rest;
        assert WithKey(s, key, k) == rest;
      } else if key(h) == k {
        assert WithKey(tail, key, k) == rest;
        assert WithKey([h] + tail, key, k) == [h] + rest;
        assert WithKey(s, key, k) == [h] + rest;
      } else {
        assert WithKey(tail, key, k) == rest;
        assert WithKey([h] + tail, key, k) == rest;
        assert WithKey(s, key, k) == rest;
      }
    }
  }

  lemma {:induction false} InsertNoDup<T(!new)>(x: T, s: seq<T>, key: T -> int)
    requires x !in s && NoDup(s)
    ensures NoDup(Insert(x, s, key))
  {
    var r := Insert(x, s, key);
    if s == [] || key(x) <= key(s[0]) {
      assert r == [x] + s;
      NoDupConcat([x], s);
    } else {
      assert s == [s[0]] + s[1..];
      var tail := Insert(x, s[1..], key);
      InsertNoDup(x, s[1..], key);
      assert r == [s[0]] + tail;
      NoDupConcat([s[0]], tail);
    }
  }

  /** Stable insertion sort by key: the reference result of sorting. */
  function SortBy<T(!new)>(s: seq<T>, key: T -> int): (r: seq<T>)
    ensures |r| == |s|
    ensures forall x {:trigger x in r} :: x in r <==> x in s
  {
    if s == [] then []
    else
      assert forall x :: x in s <==> x == s[0] || x in s[1..];
      Insert(s[0], SortBy(s[1..], key), key)
  }

  /** The insertion sort returns a sorted permutation of its input. */
  lemma {:induction false} SortBySorted<T(!new)>(s: seq<T>, key: T -> int)
    ensures SortedBy(SortBy(s, key), key)
    ensures multiset(SortBy(s, key)) == multiset(s)
  {
    if s != [] {
      SortBySorted(s[1..], key);
      InsertSorted(s[0], SortBy(s[1..], key), key);
      InsertPermutation(s[0], SortBy(s[1..], key), key);
      assert s == [s[0]] + s[1..];
    }
  }

  lemma {:induction false} SortByNoDup<T(!new)>(s: seq<T>, key: T -> int)
    requires NoDup(s)
    ensures NoDup(SortBy(s, key))
  {
    if s != [] {
      assert s == [s[0]] + s[1..];
      SortByNoDup(s[1..], key);
      assert s[0] !in s[1..];
      InsertNoDup(s[0], SortBy(s[1..], key), key);
    }
  }

  /** The insertion sort keeps equal-key elements in their input order. */
  lemma {:induction false} SortByStable<T(!new)>(s: seq<T>, key: T -> int)
    ensures Stable(s, SortBy(s, key), key)
  {
    if s != [] {
      var rest := SortBy(s[1..], key);
      SortByStable(s[1..], key);
      SortBySorted(s[1..], key);
      assert s == [s[0]] + s[1..];
      forall k ensures WithKey(SortBy(s, key), key, k) == WithKey(s, key, k) {
        InsertWithKey(s[0], rest, key, k);
        WithKeyCons(s[0], s[1..], key, k);
      }
    }
  }

  /** sortPostProcessors: nothing to sort for zero or one element; otherwise
      a stable sort by the comparator's key. The result is a permutation of
      the input. */
  function SortPostProcessors<T(!new)>(ps: seq<T>, key: T -> int): (r: seq<T>)
    ensures |ps| <= 1 ==> r == ps
    ensures |r| == |ps|
    ensures forall x {:trigger x in r} :: x in r <==> x in ps
  {
    if |ps| <= 1 then ps else SortBy(ps, key)
  }

  /** The result is a permutation of the input. */
  lemma SortPostProcessorsPermutation<T(!new)>(ps: seq<T>, key: T -> int)
    ensures multiset(SortPostProcessors(ps, key)) == multiset(ps)
  {
    SortBySorted(ps, key);
  }

  /** The result is sorted by key. */
  lemma SortPostProcessorsSorted<T(!new)>(ps: seq<T>, key: T -> int)
    ensures SortedBy(SortPostProcessors(ps, key), key)
  {
    SortBySorted(ps, key);
  }

  /** Sorting a duplicate-free list leaves it duplicate-free. */
  lemma SortPostProcessorsNoDup<T(!new)>(ps: seq<T>, key: T -> int)
    requires NoDup(ps)
    ensures NoDup(SortPostProcessors(ps, key))
  {
    if |ps| > 1 {
      SortByNoDup(ps, key);
    }
  }

  /** Elements with equal keys keep their input order. */
  lemma SortPostProcessorsStable<T(!new)>(ps: seq<T>, key: T -> int)
    ensures Stable(ps, SortPostProcessors(ps, key), key)
  {
    if |ps| > 1 {
      SortByStable(ps, key);
    }
  }

  /** In a sorted sequence no element has a smaller key than the first. */
  lemma SortedHeadIsLeast<T(!new)>(s: seq<T>, key: T -> int, y: T)
    requires SortedBy(s, key) && s != [] && y in s
    ensures key(s[0]) <= key(y)
  {
    var i :| 0 <= i < |s| && s[i] == y;
    if i > 0 {
      assert key(s[0]) <= key(s[i]);
    }
  }

  lemma SameClassesSameHead<T(!new)>(a: seq<T>, b: seq<T>, key: T -> int)
    requires SortedBy(a, key) && SortedBy(b, key) && a != [] && b != []
    requires forall k :: WithKey(a, key, k) == WithKey(b, key, k)
    ensures a[0] == b[0]
  {
    var ka, kb := key(a[0]), key(b[0]);
    assert a[0] in WithKey(a, key, ka);
    assert a[0] in WithKey(b, key, ka);
    SortedHeadIsLeast(b, key, a[0]);
    assert b[0] in WithKey(b, key, kb);
    assert b[0] in WithKey(a, key, kb);
    SortedHeadIsLeast(a, key, b[0]);
    assert ka == kb;
    assert a == [a[0]] + a[1..] && b == [b[0]] + b[1..];
    WithKeyCons(a[0], a[1..], key, ka);
    WithKeyCons(b[0], b[1..], key, ka);
    assert WithKey(a, key, ka)[0] == a[0];
    assert WithKey(b, key, ka)[0] == b[0];
  }

  lemma SameClassesSameTails<T(!new)>(a: seq<T>, b: seq<T>, key: T -> int)
    requires a != [] && b != [] && a[0] == b[0]
    requires forall k :: WithKey(a, key, k) == WithKey(b, key, k)
    ensures forall k :: WithKey(a[1..], key, k) == WithKey(b[1..], key, k)
  {
    forall k ensures WithKey(a[1..], key, k) == WithKey(b[1..], key, k) {
      assert a == [a[0]] + a[1..] && b == [b[0]] + b[1..];
      WithKeyCons(a[0], a[1..], key, k);
      WithKeyCons(b[0], b[1..], key, k);
      var pre := if key(a[0]) == k then [a[0]] else [];
      assert WithKey(a[1..], key, k) == WithKey(a, key, k)[|pre|..];
      assert WithKey(b[1..], key, k) == WithKey(b, key, k)[|pre|..];
    }
  }

  /** Two sorted sequences with the same equal-key subsequences are equal. */
  lemma {:induction false} SortedSameKeyClassesEqual<T(!new)>(a: seq<T>, b: seq<T>, key: T -> int)
    requires SortedBy(a, key) && SortedBy(b, key)
    requires forall k :: WithKey(a, key, k) == WithKey(b, key, k)
    ensures a == b
    decreases |a|
  {
    assert a != [] ==> a[0] in WithKey(a, key, key(a[0]));
    assert b != [] ==> b[0] in WithKey(b, key, key(b[0]));
    if a != [] && b != [] {
      SameClassesSameHead(a, b, key);
      SameClassesSameTails(a, b, key);
      SortedSameKeyClassesEqual(a[1..], b[1..], key);
      assert a == [a[0]] + a[1..] && b == [b[0]] + b[1..];
    }
  }

  /** Inserting `x` into `s` puts it after the `k` leading elements whose key
      is smaller than its own. */
  lemma {:induction false} InsertAt<T(!new)>(x: T, s: seq<T>, key: T -> int, k: nat)
    requires k <= |s|
    requires forall m :: 0 <= m < k ==> key(s[m]) < key(x)
    requires k < |s| ==> key(x) <= key(s[k])
    ensures Insert(x, s, key) == s[..k] + [x] + s[k..]
  {
    if k == 0 {
      assert s[..0] + [x] + s[0..] == [x] + s;
    } else {
      var t := s[1..];
      forall m | 0 <= m < k - 1 ensures key(t[m]) < key(x) {
        assert t[m] == s[m + 1];
      }
      assert k - 1 < |t| ==> t[k - 1] == s[k];
      InsertAt(x, t, key, k - 1);
      assert key(x) > key(s[0]);
      assert Insert(x, s, key) == [s[0]] + Insert(x, t, key);
      assert s[..k] == [s[0]] + t[..k - 1];
      assert s[k..] == t[k - 1..];
    }
  }

  /** One insertion step in place: the element at `i` moves right past the
      elements of the suffix behind it whose key is smaller, and those move
      one place left. */
  method InsertIntoSuffix<T(!new)>(a: array<T>, i: nat, key: T -> int)
    requires i < a.Length
    modifies a
    ensures a[..i] == old(a[..i])
    ensures a[i..] == Insert(old(a[i]), old(a[i + 1..]), key)
  {
    var n := a.Length;
    var x := a[i];
    ghost var s := a[i + 1..];
    var j := i;
    while j + 1 < n && key(a[j + 1]) < key(x)
      invariant i <= j < n
      invariant forall m :: 0 <= m < i ==> a[m] == old(a[m])
      invariant forall m :: i <= m < j ==> a[m] == s[m - i]
      invariant forall m :: j < m < n ==> a[m] == s[m - i - 1]
      invariant forall m :: 0 <= m < j - i ==> key(s[m]) < key(x)
    {
      a[j] := a[j + 1];
      j := j + 1;
    }
    a[j] := x;
    var k := j - i;
    InsertAt(x, s, key, k);
    var r := s[..k] + [x] + s[k..];
    forall m | i <= m < n ensures a[m] == r[m - i] {
      if m < j {
        assert r[m - i] == s[..k][m - i];
      } else if m > j {
        assert r[m - i] == s[k..][m - i - k - 1];
      }
    }
    assert a[i..] == r;
  }

  /** The insertion sort, run in place from the back of the array: each
      element is inserted into the already sorted suffix behind it. */
  method InsertionSort<T(!new)>(a: array<T>, key: T -> int)
    modifies a
    ensures a[..] == SortBy(old(a[..]), key)
  {
    var i := a.Length;
    while i > 0
      invariant 0 <= i <= a.Length
      invariant a[..i] == old(a[..i])
      invariant a[i..] == SortBy(old(a[i..]), key)
    {
      i := i - 1;
      ghost var was := old(a[i..]);
      assert a[i] == was[0] by {
        assert a[..i + 1][i] == old(a[..i + 1])[i];
      }
      assert was[1..] == old(a[i + 1..]);
      InsertIntoSuffix(a, i, key);
    }
    assert a[0..] == a[..];
  }

  /** sortPostProcessors on a list held in an array: at most one element is
      left as it is, otherwise the array is sorted in place. */
  method SortPostProcessorsInPlace<T(!new)>(postProcessors: array<T>, key: T -> int)
    modifies postProcessors
    ensures postProcessors[..] == SortPostProcessors(old(postProcessors[..]), key)
  {
    if postProcessors.Length <= 1 {
      return;
    }
    InsertionSort(postProcessors, key);
  }

  /** Sorts a copy of `ps` in place and hands the sorted list back. */
  method SortList<T(!new)>(ps: seq<T>, key: T -> int) returns (sorted: seq<T>)
    ensures sorted == SortPostProcessors(ps, key)
  {
    var postProcessors := new T[|ps|](i requires 0 <= i < |ps| => ps[i]);
    assert postProcessors[..] == ps;
    SortPostProcessorsInPlace(postProcessors, key);
    sorted := postProcessors[..];
  }

  /** Any sorted, stable rearrangement of `ps` is the one SortPostProcessors
      returns: a stable sort's result does not depend on the algorithm. */
  lemma StableSortIsUnique<T(!new)>(ps: seq<T>, r: seq<T>, key: T -> int)
    requires SortedBy(r, key) && Stable(ps, r, key)
    ensures r == SortPostProcessors(ps, key)
  {
    var s := SortPostProcessors(ps, key);
    SortPostProcessorsStable(ps, key);
    SortPostProcessorsSorted(ps, key);
    forall k ensures WithKey(r, key, k) == WithKey(s, key, k) {
      assert WithKey(r, key, k) == WithKey(ps, key, k);
    }
    SortedSameKeyClassesEqual(r, s, key);
  }
}
