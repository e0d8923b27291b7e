/**
 * Order notions shared by the sorting routines.
 *
 * The routines compare elements with Python's `<`, `<=` and `>`.  The model
 * takes that comparison to be a total preorder given by an integer key: `x`
 * compares before `y` exactly when `key(x) < key(y)`.  For a list of integers
 * the key is the identity; distinct elements with the same key are the "ties"
 * that stability talks about.
 */
module Ordering {

  /** The keys of `s` never decrease from left to right. */
  ghost predicate Sorted<T>(s: seq<T>, key: T -> int) {
    forall i, j :: 0 <= i < j < |s| ==> key(s[i]) <= key(s[j])
  }

  /** The subsequence of `s` made of the elements whose key is `k`, in their order in `s`. */
  function WithKey<T>(s: seq<T>, key: T -> int, k: int): (r: seq<T>)
    ensures |r| <= |s|
    ensures forall x :: x in r ==> x in s && key(x) == k
  {
    if s == [] then []
    else (if key(s[0]) == k then [s[0]] else []) + WithKey(s[1..], key, k)
  }

  /**
   * `t` keeps, for every key, the elements of `s` with that key in the same
   * order: equal elements keep their relative order.
   */
  ghost predicate Stable<T>(s: seq<T>, t: seq<T>, key: T -> int) {
    forall k :: WithKey(t, key, k) == WithKey(s, key, k)
  }

  lemma {:induction false} WithKeyConcat<T>(a: seq<T>, b: seq<T>, key: T -> int, k: int)
    ensures WithKey(a + b, key, k) == WithKey(a, key, k) + WithKey(b, key, k)
  {
    if a == [] {
      assert a + b == b;
    } else {
      assert (a + b)[0] == a[0];
      assert (a + b)[1..] == a[1..] + b;
      WithKeyConcat(a[1..], b, key, k);
    }
  }

  /** Every element of `s` whose key is `k` is kept in `WithKey(s, key, k)`. */
  lemma {:induction false} WithKeyHas<T>(s: seq<T>, key: T -> int, x: T)
    requires x in s
    ensures x in WithKey(s, key, key(x))
  {
    if s[0] != x {
      WithKeyHas(s[1..], key, x);
    }
  }

  /** No element of a sequence whose keys are all above `k` has key `k`. */
  lemma {:induction false} WithKeyAbove<T>(s: seq<T>, key: T -> int, k: int)
    requires forall i :: 0 <= i < |s| ==> k < key(s[i])
    ensures WithKey(s, key, k) == []
  {
    if s != [] {
      WithKeyAbove(s[1..], key, k);
    }
  }

  /** Two neighbours with different keys never fall into the same tie. */
  lemma WithKeyPair<T>(x: T, y: T, key: T -> int, k: int)
    requires key(x) != key(y)
    ensures WithKey([x, y], key, k) == WithKey([y, x], key, k)
  {
    assert [x, y][1..] == [y];
    assert [y, x][1..] == [x];
  }

  /** Exchanging two neighbours with different keys keeps every tie in order. */
  lemma WithKeySwap<T>(s: seq<T>, i: nat, key: T -> int)
    requires i + 1 < |s|
    requires key(s[i]) != key(s[i + 1])
    ensures Stable(s, s[i := s[i + 1]][i + 1 := s[i]], key)
  {
    var t := s[i := s[i + 1]][i + 1 := s[i]];
    var pre, post := s[..i], s[i + 2..];
    assert s == pre + [s[i], s[i + 1]] + post;
    assert t == pre + [s[i + 1], s[i]] + post;
    forall k ensures WithKey(t, key, k) == WithKey(s, key, k) {
      WithKeyConcat(pre + [s[i], s[i + 1]], post, key, k);
      WithKeyConcat(pre, [s[i], s[i + 1]], key, k);
      WithKeyConcat(pre + [s[i + 1], s[i]], post, key, k);
      WithKeyConcat(pre, [s[i + 1], s[i]], key, k);
      WithKeyPair(s[i], s[i + 1], key, k);
    }
  }

  /** The number of occurrences of `x` among the elements with key `key(x)` is its number in `s`. */
  lemma {:induction false} WithKeyCount<T>(s: seq<T>, key: T -> int, x: T)
    ensures multiset(WithKey(s, key, key(x)))[x] == multiset(s)[x]
  {
    if s != [] {
      WithKeyCount(s[1..], key, x);
      assert s == [s[0]] + s[1..];
    }
  }

  /** A stable rearrangement is in particular a permutation. */
  lemma StableIsPermutation<T>(s: seq<T>, t: seq<T>, key: T -> int)
    requires Stable(s, t, key)
    ensures multiset(t) == multiset(s)
  {
    forall x ensures multiset(t)[x] == multiset(s)[x] {
      WithKeyCount(s, key, x);
      WithKeyCount(t, key, x);
      assert WithKey(t, key, key(x)) == WithKey(s, key, key(x));
    }
  }

  /** The first elements of two sorted, stable rearrangements of one another agree. */
  lemma SortedStableHeads<T>(s: seq<T>, t: seq<T>, key: T -> int)
    requires s != [] && t != []
    requires Sorted(s, key) && Sorted(t, key)
    requires Stable(s, t, key)
    ensures s[0] == t[0]
  {
    var a, b := s[0], t[0];
    WithKeyHas(t, key, b);
    assert b in WithKey(s, key, key(b));
    assert key(a) <= key(b);
    WithKeyHas(s, key, a);
    assert a in WithKey(t, key, key(a));
    assert key(b) <= key(a);
    assert WithKey(s, key, key(a))[0] == a;
    assert WithKey(t, key, key(a))[0] == b;
  }

  /** Removing a common first element keeps two sequences stable rearrangements of one another. */
  lemma StableTails<T>(s: seq<T>, t: seq<T>, key: T -> int)
    requires s != [] && t != [] && s[0] == t[0]
    requires Stable(s, t, key)
    ensures Stable(s[1..], t[1..], key)
  {
    forall k ensures WithKey(t[1..], key, k) == WithKey(s[1..], key, k) {
      var head := if key(s[0]) == k then [s[0]] else [];
      assert WithKey(s, key, k) == head + WithKey(s[1..], key, k);
      assert WithKey(t, key, k) == head + WithKey(t[1..], key, k);
      assert (head + WithKey(s[1..], key, k))[|head|..] == WithKey(s[1..], key, k);
      assert (head + WithKey(t[1..], key, k))[|head|..] == WithKey(t[1..], key, k);
    }
  }

  /**
   * Sortedness and stability determine the result: two sorted sequences that
   * are stable rearrangements of one another are equal.  So every stable sort
   * of a sequence gives the same answer.
   */
  lemma {:induction false} SortedStableUnique<T>(s: seq<T>, t: seq<T>, key: T -> int)
    requires Sorted(s, key) && Sorted(t, key)
    requires Stable(s, t, key)
    ensures s == t
  {
    StableIsPermutation(s, t, key);
    assert |s| == |multiset(s)| == |multiset(t)| == |t|;
    if s != [] {
      SortedStableHeads(s, t, key);
      StableTails(s, t, key);
      SortedStableUnique(s[1..], t[1..], key);
      assert s == [s[0]] + s[1..] && t == [t[0]] + t[1..];
    }
  }
}
