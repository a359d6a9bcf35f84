/**
 * Python's `list.sort(key=...)`: an in-place, stable sort by an integer key.
 * The reference definition is insertion sort on sequences; the in-place method
 * on an array is proved to compute it, and the lemmas prove that the reference
 * is ordered, a permutation, and stable (elements with equal keys keep their order).
 */
module PySort {

  ghost predicate SortedBy<T>(s: seq<T>, key: T -> int)
  {
    forall i, j :: 0 <= i < j < |s| ==> key(s[i]) <= key(s[j])
  }

  /** Insert `x` after every trailing element whose key exceeds its own. */
  function Insert<T>(s: seq<T>, x: T, key: T -> int): (r: seq<T>)
    ensures |r| == |s| + 1
  {
    if s == [] || key(s[|s| - 1]) <= key(x) then s + [x]
    else Insert(s[..|s| - 1], x, key) + [s[|s| - 1]]
  }

  /** The stably sorted copy of `s`. */
  function StableSort<T>(s: seq<T>, key: T -> int): (r: seq<T>)
    ensures |r| == |s|
  {
    if s == [] then [] else Insert(StableSort(s[..|s| - 1], key), s[|s| - 1], key)
  }

  /** The elements of `s` whose key is `k`, in their order in `s`. */
  function WithKey<T>(s: seq<T>, key: T -> int, k: int): seq<T>
  {
    if s == [] then []
    else WithKey(s[..|s| - 1], key, k) + (if key(s[|s| - 1]) == k then [s[|s| - 1]] else [])
  }

  lemma {:induction false} InsertPermutation<T>(s: seq<T>, x: T, key: T -> int)
    ensures multiset(Insert(s, x, key)) == multiset(s) + multiset{x}
    decreases |s|
  {
    if !(s == [] || key(s[|s| - 1]) <= key(x)) {
      InsertPermutation(s[..|s| - 1], x, key);
      assert s == s[..|s| - 1] + [s[|s| - 1]];
    }
  }

  lemma {:induction false} InsertSorted<T>(s: seq<T>, x: T, key: T -> int)
    requires SortedBy(s, key)
    ensures SortedBy(Insert(s, x, key), key)
    decreases |s|
  {
    if !(s == [] || key(s[|s| - 1]) <= key(x)) {
      var init, last := s[..|s| - 1], s[|s| - 1];
      InsertSorted(init, x, key);
      InsertPermutation(init, x, key);
      var r := Insert(init, x, key);
      forall i | 0 <= i < |r| ensures key(r[i]) <= key(last) {
        assert r[i] in multiset(init) + multiset{x} by { assert r[i] in multiset(r); }
        if r[i] != x {
          var j :| 0 <= j < |init| && init[j] == r[i];
          assert key(s[j]) <= key(s[|s| - 1]);
        }
      }
    }
  }

  lemma {:induction false} WithKeyAppend<T>(a: seq<T>, b: seq<T>, key: T -> int, k: int)
    ensures WithKey(a + b, key, k) == WithKey(a, key, k) + WithKey(b, key, k)
    decreases |b|
  {
    if b == [] {
      assert a + b == a;
    } else {
      assert (a + b)[..|a + b| - 1] == a + b[..|b| - 1];
      WithKeyAppend(a, b[..|b| - 1], key, k);
    }
  }

  lemma WithKeySingle<T>(x: T, key: T -> int, k: int)
    ensures WithKey([x], key, k) == if key(x) == k then [x] else []
  {
    assert [x][..0] == [];
  }

  lemma {:induction false} InsertWithKey<T>(s: seq<T>, x: T, key: T -> int, k: int)
    ensures WithKey(Insert(s, x, key), key, k) == WithKey(s, key, k) + WithKey([x], key, k)
    decreases |s|
  {
    if s == [] || key(s[|s| - 1]) <= key(x) {
      WithKeyAppend(s, [x], key, k);
    } else {
      var init, last := s[..|s| - 1], s[|s| - 1];
      var r := Insert(init, x, key);
      assert Insert(s, x, key) == r + [last];
      InsertWithKey(init, x, key, k);
      WithKeyAppend(r, [last], key, k);
      WithKeyAppend(init, [last], key, k);
      assert init + [last] == s;
      WithKeySingle(x, key, k);
      WithKeySingle(last, key, k);
      if key(x) == k {
        assert WithKey([last], key, k) == [];
      } else {
        assert WithKey([x], key, k) == [];
      }
    }
  }

  /** The reference sort is ordered by key. */
  lemma {:induction false} StableSortSorted<T>(s: seq<T>, key: T -> int)
    ensures SortedBy(StableSort(s, key), key)
    decreases |s|
  {
    if s != [] {
      StableSortSorted(s[..|s| - 1], key);
      InsertSorted(StableSort(s[..|s| - 1], key), s[|s| - 1], key);
    }
  }

  /** The reference sort is a permutation of its input. */
  lemma {:induction false} StableSortPermutation<T>(s: seq<T>, key: T -> int)
    ensures multiset(StableSort(s, key)) == multiset(s)
    decreases |s|
  {
    if s != [] {
      StableSortPermutation(s[..|s| - 1], key);
      InsertPermutation(StableSort(s[..|s| - 1], key), s[|s| - 1], key);
      assert s == s[..|s| - 1] + [s[|s| - 1]];
    }
  }

  /** The reference sort is stable: for every key, the elements with that key keep their order. */
  lemma {:induction false} StableSortStable<T>(s: seq<T>, key: T -> int, k: int)
    ensures WithKey(StableSort(s, key), key, k) == WithKey(s, key, k)
    decreases |s|
  {
    if s != [] {
      StableSortStable(s[..|s| - 1], key, k);
      InsertWithKey(StableSort(s[..|s| - 1], key), s[|s| - 1], key, k);
      WithKeyAppend(s[..|s| - 1], [s[|s| - 1]], key, k);
      assert s == s[..|s| - 1] + [s[|s| - 1]];
    }
  }

  /** `Insert` places `x` right after the last element whose key does not exceed its own. */
  lemma {:induction false} InsertPosition<T>(s: seq<T>, j: nat, x: T, key: T -> int)
    requires j <= |s| && (j == 0 || key(s[j - 1]) <= key(x))
    requires forall m :: j <= m < |s| ==> key(s[m]) > key(x)
    ensures Insert(s, x, key) == s[..j] + [x] + s[j..]
    decreases |s|
  {
    if j == |s| {
      assert s[..j] == s && s[j..] == [];
    } else {
      var init, last := s[..|s| - 1], s[|s| - 1];
      assert key(last) > key(x);
      assert Insert(s, x, key) == Insert(init, x, key) + [last];
      assert init[..j] == s[..j];
      assert forall m :: j <= m < |init| ==> init[m] == s[m];
      InsertPosition(init, j, x, key);
      assert s[j..] == init[j..] + [last];
      assert s[..j] + [x] + s[j..] == (init[..j] + [x] + init[j..]) + [last];
    }
  }

  lemma InsertAssembled<T>(b: seq<T>, sorted: seq<T>, j: nat, x: T)
    requires j <= |sorted| < |b|
    requires forall m :: 0 <= m < j ==> b[m] == sorted[m]
    requires b[j] == x
    requires forall m :: j < m <= |sorted| ==> b[m] == sorted[m - 1]
    ensures b[..|sorted| + 1] == sorted[..j] + [x] + sorted[j..]
  {
  }

  /** One step of insertion sort: move `a[i]` left past every element of `a[..i]` with a larger key. */
  method InsertAt<T>(a: array<T>, i: nat, key: T -> int)
    requires i < a.Length
    modifies a
    ensures a[..i + 1] == Insert(old(a[..i]), old(a[i]), key)
    ensures a[i + 1..] == old(a[i + 1..])
  {
    ghost var sorted := a[..i];
    var x := a[i];
    var j := i;
    while j > 0 && key(a[j - 1]) > key(x)
      invariant 0 <= j <= i
      invariant forall m :: 0 <= m < j ==> a[m] == sorted[m]
      invariant forall m :: j < m <= i ==> a[m] == sorted[m - 1]
      invariant forall m :: i < m < a.Length ==> a[m] == old(a[m])
      invariant forall m :: j <= m < i ==> key(sorted[m]) > key(x)
    {
      a[j] := a[j - 1];
      j := j - 1;
    }
    a[j] := x;
    InsertPosition(sorted, j, x, key);
    InsertAssembled(a[..], sorted, j, x);
    assert a[..][..i + 1] == a[..i + 1];
    assert a[i + 1..] == old(a[i + 1..]);
  }

  lemma StableSortStep<T>(s: seq<T>, i: nat, key: T -> int)
    requires i < |s|
    ensures StableSort(s[..i + 1], key) == Insert(StableSort(s[..i], key), s[i], key)
  {
    assert s[..i + 1][..i] == s[..i];
  }

  /** `a.sort(key=key)` by insertion, in place. */
  method SortInPlace<T>(a: array<T>, key: T -> int)
    modifies a
    ensures a[..] == StableSort(old(a[..]), key)
  {
    ghost var input := a[..];
    var i := 0;
    while i < a.Length
      invariant 0 <= i <= a.Length
      invariant a[..i] == StableSort(input[..i], key)
      invariant a[i..] == input[i..]
    {
      StableSortStep(input, i, key);
      ghost var rest := a[i..];
      assert a[i] == rest[0] == input[i];
      InsertAt(a, i, key);
      assert a[i + 1..] == rest[1..] == input[i + 1..];
      i := i + 1;
    }
    assert a[..] == a[..a.Length];
    assert input[..a.Length] == input;
  }
}
