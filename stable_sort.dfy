/** A stable sort by descending integer key: the result Python's `sorted(xs,
    key=k, reverse=True)` and `xs.sort(key=k, reverse=True)` produce. Python
    documents both as stable, and reverse=True keeps equal elements in their
    original order, so the result is the unique non-increasing rearrangement
    in which elements with equal keys keep their relative order. */
module StableSort {

  /** Keys never increase from left to right. */
  predicate NonIncreasing<T>(s: seq<T>, key: T -> int) {
    forall i, j :: 0 <= i < j < |s| ==> key(s[i]) >= key(s[j])
  }

  /** The subsequence of the elements of s whose key is k, in their order in s. */
  function WithKey<T>(s: seq<T>, key: T -> int, k: int): seq<T> {
    if s == [] then []
    else (if key(s[0]) == k then [s[0]] else []) + WithKey(s[1..], key, k)
  }

  /** Inserts x into the non-increasing s, ahead of every element whose key
      does not exceed key(x). */
  function Insert<T>(x: T, s: seq<T>, key: T -> int): seq<T> {
    if s == [] || key(x) >= key(s[0]) then [x] + s
    else [s[0]] + Insert(x, s[1..], key)
  }

  /** Insertion sort from the back: the stable descending order of s. */
  function SortDesc<T>(s: seq<T>, key: T -> int): seq<T> {
    if s == [] then [] else Insert(s[0], SortDesc(s[1..], key), key)
  }

  // ---------------------------------------------------------------------
  // Insert
  // ---------------------------------------------------------------------

  lemma {:induction false} InsertPermutation<T>(x: T, s: seq<T>, key: T -> int)
    ensures multiset(Insert(x, s, key)) == multiset{x} + multiset(s)
    ensures |Insert(x, s, key)| == |s| + 1
    decreases |s|
  {
    if s != [] && key(x) < key(s[0]) {
      InsertPermutation(x, s[1..], key);
      assert s == [s[0]] + s[1..];
    }
  }

  lemma {:induction false} InsertBounded<T>(x: T, s: seq<T>, key: T -> int, bound: int)
    requires key(x) <= bound
    requires forall i :: 0 <= i < |s| ==> key(s[i]) <= bound
    ensures forall i :: 0 <= i < |Insert(x, s, key)| ==> key(Insert(x, s, key)[i]) <= bound
    decreases |s|
  {
    if s != [] && key(x) < key(s[0]) {
      InsertBounded(x, s[1..], key, bound);
    }
  }

  lemma {:induction false} InsertSorted<T>(x: T, s: seq<T>, key: T -> int)
    requires NonIncreasing(s, key)
    ensures NonIncreasing(Insert(x, s, key), key)
    decreases |s|
  {
    if s != [] && key(x) < key(s[0]) {
      InsertSorted(x, s[1..], key);
      InsertBounded(x, s[1..], key, key(s[0]));
      var r := Insert(x, s[1..], key);
      assert forall i :: 0 < i < |r| + 1 ==> ([s[0]] + r)[i] == r[i - 1];
    }
  }

  lemma {:induction false} WithKeyInsert<T>(x: T, s: seq<T>, key: T -> int, k: int)
    requires NonIncreasing(s, key)
    ensures WithKey(Insert(x, s, key), key, k) == (if key(x) == k then [x] else []) + WithKey(s, key, k)
    decreases |s|
  {
    if s == [] || key(x) >= key(s[0]) {
      assert ([x] + s)[1..] == s;
    } else {
      WithKeyInsert(x, s[1..], key, k);
      assert ([s[0]] + Insert(x, s[1..], key))[1..] == Insert(x, s[1..], key);
    }
  }

  /** x moves past every element of p, which all have larger keys. */
  lemma {:induction false} InsertPastLarger<T>(x: T, p: seq<T>, q: seq<T>, key: T -> int)
    requires forall i :: 0 <= i < |p| ==> key(p[i]) > key(x)
    ensures Insert(x, p + q, key) == p + Insert(x, q, key)
    decreases |p|
  {
    if p != [] {
      InsertPastLarger(x, p[1..], q, key);
      assert (p + q)[1..] == p[1..] + q;
      assert p == [p[0]] + p[1..];
    } else {
      assert p + q == q;
    }
  }

  // ---------------------------------------------------------------------
  // SortDesc
  // ---------------------------------------------------------------------

  /** Sorting a suffix inserts its first element into the sorted rest. */
  lemma SortDescSuffix<T>(s: seq<T>, n: nat, key: T -> int)
    requires n < |s|
    ensures SortDesc(s[n..], key) == Insert(s[n], SortDesc(s[n + 1..], key), key)
  {
    assert s[n..][1..] == s[n + 1..];
  }

  /** The sorted sequence is non-increasing and a permutation of the input. */
  lemma {:induction false} SortDescSortedPermutation<T>(s: seq<T>, key: T -> int)
    ensures NonIncreasing(SortDesc(s, key), key)
    ensures multiset(SortDesc(s, key)) == multiset(s)
    ensures |SortDesc(s, key)| == |s|
    decreases |s|
  {
    if s != [] {
      SortDescSortedPermutation(s[1..], key);
      InsertSorted(s[0], SortDesc(s[1..], key), key);
      InsertPermutation(s[0], SortDesc(s[1..], key), key);
      assert s == [s[0]] + s[1..];
    }
  }

  /** Stability: for every key, the elements with that key appear in the
      sorted sequence in exactly their input order. */
  lemma {:induction false} SortDescStable<T>(s: seq<T>, key: T -> int, k: int)
    ensures WithKey(SortDesc(s, key), key, k) == WithKey(s, key, k)
    decreases |s|
  {
    if s != [] {
      SortDescStable(s[1..], key, k);
      SortDescSortedPermutation(s[1..], key);
      WithKeyInsert(s[0], SortDesc(s[1..], key), key, k);
    }
  }

  /** Sorting neither adds nor drops an element. */
  lemma SortDescElements<T>(s: seq<T>, key: T -> int)
    ensures forall x :: x in SortDesc(s, key) <==> x in s
  {
    SortDescSortedPermutation(s, key);
    assert forall x :: x in SortDesc(s, key) <==> x in multiset(SortDesc(s, key));
    assert forall x :: x in s <==> x in multiset(s);
  }

  // ---------------------------------------------------------------------
  // Uniqueness: being non-increasing and keeping every key's subsequence
  // pins the result down, whatever algorithm produced it.
  // ---------------------------------------------------------------------

  lemma {:induction false} WithKeyMember<T>(s: seq<T>, key: T -> int, k: int, x: T)
    ensures x in WithKey(s, key, k) <==> x in s && key(x) == k
    decreases |s|
  {
    if s != [] {
      WithKeyMember(s[1..], key, k, x);
      assert s == [s[0]] + s[1..];
    }
  }

  lemma {:induction false} WithKeyLength<T>(s: seq<T>, key: T -> int, k: int)
    ensures |WithKey(s, key, k)| <= |s|
    ensures (forall i :: 0 <= i < |s| ==> key(s[i]) != k) ==> WithKey(s, key, k) == []
    decreases |s|
  {
    if s != [] {
      WithKeyLength(s[1..], key, k);
    }
  }

  /** Sequences with the same per-key subsequences are both empty or both not. */
  lemma SameKeysSameEmptiness<T>(t: seq<T>, u: seq<T>, key: T -> int)
    requires forall k :: WithKey(t, key, k) == WithKey(u, key, k)
    ensures t == [] <==> u == []
  {
    if t != [] {
      WithKeyMember(t, key, key(t[0]), t[0]);
      WithKeyMember(u, key, key(t[0]), t[0]);
      assert t[0] in u;
    }
    if u != [] {
      WithKeyMember(u, key, key(u[0]), u[0]);
      WithKeyMember(t, key, key(u[0]), u[0]);
      assert u[0] in t;
    }
  }

  /** Two non-increasing sequences with the same per-key subsequences are equal. */
  lemma {:induction false} StableOrderUnique<T>(t: seq<T>, u: seq<T>, key: T -> int)
    requires NonIncreasing(t, key) && NonIncreasing(u, key)
    requires forall k :: WithKey(t, key, k) == WithKey(u, key, k)
    ensures t == u
    decreases |t| + |u|
  {
    SameKeysSameEmptiness(t, u, key);
    if t != [] {
      // the first elements carry the largest key of each sequence
      var kt, ku := key(t[0]), key(u[0]);
      assert kt == ku by {
        WithKeyMember(t, key, kt, t[0]);
        WithKeyMember(u, key, kt, t[0]);
        WithKeyMember(u, key, ku, u[0]);
        WithKeyMember(t, key, ku, u[0]);
        assert t[0] in u;
        assert u[0] in t;
      }
      assert t[0] == u[0] by {
        assert WithKey(t, key, kt) == WithKey(u, key, kt);
        assert WithKey(t, key, kt) == [t[0]] + WithKey(t[1..], key, kt);
        assert WithKey(u, key, kt) == [u[0]] + WithKey(u[1..], key, kt);
        assert WithKey(t, key, kt)[0] == t[0] && WithKey(u, key, kt)[0] == u[0];
      }
      forall k ensures WithKey(t[1..], key, k) == WithKey(u[1..], key, k) {
        assert WithKey(t, key, k) == WithKey(u, key, k);
        assert WithKey(t, key, k) == (if kt == k then [t[0]] else []) + WithKey(t[1..], key, k);
        assert WithKey(u, key, k) == (if ku == k then [u[0]] else []) + WithKey(u[1..], key, k);
        if kt == k {
          assert ([t[0]] + WithKey(t[1..], key, k))[1..] == WithKey(t[1..], key, k);
          assert ([u[0]] + WithKey(u[1..], key, k))[1..] == WithKey(u[1..], key, k);
          assert [t[0]] + WithKey(t[1..], key, k) == [u[0]] + WithKey(u[1..], key, k);
        } else {
          assert ku != k;
          assert WithKey(t[1..], key, k) == WithKey(t, key, k);
        }
      }
      StableOrderUnique(t[1..], u[1..], key);
      assert t == [t[0]] + t[1..] && u == [u[0]] + u[1..];
    }
  }

  /** SortDesc is the one stable descending order: any non-increasing
      sequence that keeps every key's subsequence of s is SortDesc(s). */
  lemma SortDescCharacterized<T>(s: seq<T>, t: seq<T>, key: T -> int)
    requires NonIncreasing(t, key)
    requires forall k :: WithKey(t, key, k) == WithKey(s, key, k)
    ensures t == SortDesc(s, key)
  {
    SortDescSortedPermutation(s, key);
    forall k ensures WithKey(t, key, k) == WithKey(SortDesc(s, key), key, k) {
      SortDescStable(s, key, k);
    }
    StableOrderUnique(t, SortDesc(s, key), key);
  }
  // ---------------------------------------------------------------------
  // Sorting never makes two elements agree on an attribute
  // ---------------------------------------------------------------------

  /** No two elements of s agree on f. */
  ghost predicate DistinctBy<T, K>(s: seq<T>, f: T -> K) {
    forall i, j :: 0 <= i < j < |s| ==> f(s[i]) != f(s[j])
  }

  lemma {:induction false} InsertAvoids<T, K>(x: T, s: seq<T>, key: T -> int, f: T -> K, v: K)
    requires f(x) != v
    requires forall i :: 0 <= i < |s| ==> f(s[i]) != v
    ensures forall i :: 0 <= i < |Insert(x, s, key)| ==> f(Insert(x, s, key)[i]) != v
    decreases |s|
  {
    if s != [] && key(x) < key(s[0]) {
      InsertAvoids(x, s[1..], key, f, v);
    }
  }

  lemma {:induction false} SortDescAvoids<T, K>(s: seq<T>, key: T -> int, f: T -> K, v: K)
    requires forall i :: 0 <= i < |s| ==> f(s[i]) != v
    ensures forall i :: 0 <= i < |SortDesc(s, key)| ==> f(SortDesc(s, key)[i]) != v
    decreases |s|
  {
    if s != [] {
      SortDescAvoids(s[1..], key, f, v);
      InsertAvoids(s[0], SortDesc(s[1..], key), key, f, v);
    }
  }

  lemma {:induction false} InsertDistinct<T, K>(x: T, s: seq<T>, key: T -> int, f: T -> K)
    requires DistinctBy(s, f)
    requires forall i :: 0 <= i < |s| ==> f(s[i]) != f(x)
    ensures DistinctBy(Insert(x, s, key), f)
    decreases |s|
  {
    if s != [] && key(x) < key(s[0]) {
      InsertDistinct(x, s[1..], key, f);
      InsertAvoids(x, s[1..], key, f, f(s[0]));
      var r := Insert(x, s[1..], key);
      assert forall i :: 0 < i < |r| + 1 ==> ([s[0]] + r)[i] == r[i - 1];
    } else {
      assert forall i :: 0 < i < |s| + 1 ==> ([x] + s)[i] == s[i - 1];
    }
  }

  /** Sorting keeps a sequence free of two elements that agree on f. */
  lemma {:induction false} SortDescDistinct<T, K>(s: seq<T>, key: T -> int, f: T -> K)
    requires DistinctBy(s, f)
    ensures DistinctBy(SortDesc(s, key), f)
    decreases |s|
  {
    if s != [] {
      assert DistinctBy(s[1..], f);
      SortDescDistinct(s[1..], key, f);
      SortDescAvoids(s[1..], key, f, f(s[0]));
      InsertDistinct(s[0], SortDesc(s[1..], key), key, f);
    }
  }
}
